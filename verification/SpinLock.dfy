/** The spin lock of the support library, one instruction of one processor at a
    time, over the swap instruction the processors execute. */
module SpinLocks {
  import opened Words
  import opened Dma

  const EXC_LAF: Word := 5
  const EXC_SAF: Word := 7

  const ZERO := 0
  const T0 := 5
  const T1 := 6
  const A0 := 10

  type Registers = r: seq<Word> | |r| == 32 witness seq(32, _ => 0)

  function Reg(r: Registers, i: nat): Word
    requires i < 32
  {
    if i == ZERO then 0 else r[i]
  }

  function SetReg(r: Registers, i: nat, v: Word): Registers
    requires i < 32
  {
    if i == ZERO then r else r[i := v]
  }

  /** What a swap leaves: registers, memory, and the cause it signalled last. */
  datatype Swapped = Swapped(regs: Registers, memory: Memory, cause: Option<Word>)

  /** The swap: reads both source registers, then memory, then writes the
      destination register, then memory.  A failed read signals a load fault and
      yields all ones, but the swap goes on; a failed write signals a store fault over
      the other. */
  function AmoSwap(r: Registers, m: Memory, rd: nat, rs1: nat, rs2: nat): (s: Swapped)
    requires rd < 32 && rs1 < 32 && rs2 < 32
    ensures var a := Reg(r, rs1);
            && s.memory.writable == m.writable
            && s.memory.cells == (if a in m.writable then m.cells[a := Reg(r, rs2)] else m.cells)
            && (rd != ZERO ==> Reg(s.regs, rd) == if a in m.cells then m.cells[a] else MAXWORD)
            && Reg(s.regs, 0) == 0 && (rd == 0 ==> s.regs == r)
            && (forall i :: 0 <= i < 32 && i != rd ==> Reg(s.regs, i) == Reg(r, i))
            && (s.cause == None <==> a in m.cells && a in m.writable)
            && (s.cause == Some(EXC_SAF) <==> a !in m.writable)
  {
    var addr, value := Reg(r, rs1), Reg(r, rs2);
    var loadFault := addr !in m.cells;
    var datap := if loadFault then MAXWORD else m.cells[addr];
    var regs := SetReg(r, rd, datap);
    if addr in m.writable then
      Swapped(regs, m.(cells := m.cells[addr := value]), if loadFault then Some(EXC_LAF) else None)
    else Swapped(regs, m, Some(EXC_SAF))
  }

  /** On a word of RAM the swap always goes through. */
  function SwapInRam(r: Registers, mem: map<Word, Word>, rd: nat, rs1: nat, rs2: nat):
      (s: (Registers, map<Word, Word>))
    requires rd < 32 && rs1 < 32 && rs2 < 32 && Reg(r, rs1) in mem
    ensures s.1 == mem[Reg(r, rs1) := Reg(r, rs2)]
    ensures rd != ZERO ==> Reg(s.0, rd) == mem[Reg(r, rs1)]
    ensures forall i :: 0 <= i < 32 && i != rd ==> Reg(s.0, i) == Reg(r, i)
  {
    var x := AmoSwap(r, Memory(mem, mem.Keys), rd, rs1, rs2);
    (x.regs, x.memory.cells)
  }

  /** Where a processor is: outside, in the five instructions that acquire, inside,
      or in the two that release. */
  datatype Place =
    | Outside
    | AcquireLi0 | AcquireLi1 | Retry | Branch | AcquireReturn
    | Inside
    | ReleaseLi | ReleaseSwap

  datatype Cpu = Cpu(at: Place, regs: Registers)

  datatype State = State(cpus: seq<Cpu>, mem: map<Word, Word>)

  /** What a processor does next. Away from the routines it may enter one, or do
      anything to its registers and to memory other than the lock. */
  datatype Action =
    | Call
    | Next
    | Other(regs: Registers, writes: map<Word, Word>)

  predicate Enabled(s: State, lock: Word, k: nat, a: Action) {
    && k < |s.cpus|
    && var c := s.cpus[k];
       match a
       case Call => (c.at.Outside? || c.at.Inside?) && Reg(c.regs, A0) == lock
       case Next => !c.at.Outside? && !c.at.Inside?
       case Other(_, writes) => (c.at.Outside? || c.at.Inside?) && lock !in writes
  }

  function NextInstruction(c: Cpu, mem: map<Word, Word>): (Cpu, map<Word, Word>)
    requires Reg(c.regs, A0) in mem && !c.at.Outside? && !c.at.Inside?
  {
    match c.at
    case AcquireLi0 => (Cpu(AcquireLi1, SetReg(c.regs, T0, 1)), mem)
    case AcquireLi1 => (Cpu(Retry, SetReg(c.regs, T1, 0)), mem)
    case Retry =>
      var (regs, mem') := SwapInRam(c.regs, mem, T0, A0, T0);
      (Cpu(Branch, regs), mem')
    case Branch => (c.(at := if Reg(c.regs, T0) != Reg(c.regs, T1) then Retry else AcquireReturn), mem)
    case AcquireReturn => (c.(at := Inside), mem)
    case ReleaseLi => (Cpu(ReleaseSwap, SetReg(c.regs, T0, 0)), mem)
    case ReleaseSwap =>
      var (regs, mem') := SwapInRam(c.regs, mem, T0, A0, T0);
      (Cpu(Outside, regs), mem')
  }

  /** The processor has swapped in a 1 for a 0 and not yet swapped it back. */
  predicate Holds(c: Cpu) {
    match c.at
    case Branch => Reg(c.regs, T0) == 0
    case AcquireReturn => true
    case Inside => true
    case ReleaseLi => true
    case ReleaseSwap => true
    case _ => false
  }

  /** What the registers hold inside the routines. */
  predicate CpuOk(c: Cpu, lock: Word) {
    && (!c.at.Outside? && !c.at.Inside? ==> Reg(c.regs, A0) == lock)
    && (c.at.AcquireLi1? || c.at.Retry? ==> Reg(c.regs, T0) == 1)
    && (c.at.Retry? || c.at.Branch? ==> Reg(c.regs, T1) == 0)
    && (c.at.Branch? ==> Reg(c.regs, T0) <= 1)
    && (c.at.ReleaseSwap? ==> Reg(c.regs, T0) == 0)
  }

  /** The lock is 0 with no holder, or 1 with exactly one. */
  ghost predicate LockOk(s: State, lock: Word) {
    && lock in s.mem
    && (forall k :: 0 <= k < |s.cpus| ==> CpuOk(s.cpus[k], lock))
    && (s.mem[lock] == 0 || s.mem[lock] == 1)
    && (s.mem[lock] == 0 ==> forall k :: 0 <= k < |s.cpus| ==> !Holds(s.cpus[k]))
    && (s.mem[lock] == 1 ==> exists h :: SoleHolder(s, h))
  }

  ghost predicate SoleHolder(s: State, h: nat) {
    h < |s.cpus| && forall k :: 0 <= k < |s.cpus| ==> (Holds(s.cpus[k]) <==> k == h)
  }

  /** One processor does one thing; a call from inside is a call to release. */
  function Step(s: State, lock: Word, k: nat, a: Action): (r: State)
    requires LockOk(s, lock) && Enabled(s, lock, k, a)
    ensures |r.cpus| == |s.cpus| && forall i :: 0 <= i < |s.cpus| && i != k ==> r.cpus[i] == s.cpus[i]
    ensures a.Other? ==> r.cpus[k] == s.cpus[k].(regs := a.regs) && r.mem == s.mem + a.writes
  {
    var c := s.cpus[k];
    match a
    case Call => s.(cpus := s.cpus[k := c.(at := if c.at.Outside? then AcquireLi0 else ReleaseLi)])
    case Next =>
      var (c', mem') := NextInstruction(c, s.mem);
      State(s.cpus[k := c'], mem')
    case Other(regs, writes) => State(s.cpus[k := c.(regs := regs)], s.mem + writes)
  }

  /** A step by a processor that is and stays, or is not and stays not, a holder. */
  lemma SameHolders(s: State, s': State, lock: Word, k: nat)
    requires LockOk(s, lock) && k < |s.cpus| == |s'.cpus| && lock in s'.mem && s'.mem[lock] == s.mem[lock]
    requires forall i :: 0 <= i < |s.cpus| && i != k ==> s'.cpus[i] == s.cpus[i]
    requires CpuOk(s'.cpus[k], lock) && Holds(s'.cpus[k]) == Holds(s.cpus[k])
    ensures LockOk(s', lock)
  {
    hide Holds, CpuOk;
    if s.mem[lock] == 1 {
      var h :| SoleHolder(s, h);
      assert SoleHolder(s', h);
    }
  }

  /** A swap at the retry: it acquires exactly when it sees 0. */
  lemma RetryKeeps(s: State, lock: Word, k: nat)
    requires LockOk(s, lock) && k < |s.cpus| && s.cpus[k].at.Retry?
    ensures var s' := Step(s, lock, k, Next);
            LockOk(s', lock) && s'.mem[lock] == 1 && (SoleHolder(s', k) <==> s.mem[lock] == 0)
  {
    var s' := Step(s, lock, k, Next);
    assert !Holds(s.cpus[k]);
    if s.mem[lock] == 0 {
      assert SoleHolder(s', k);
    } else {
      SameHolders(s, s', lock, k);
    }
  }

  lemma ReleaseKeeps(s: State, lock: Word, k: nat)
    requires LockOk(s, lock) && k < |s.cpus| && s.cpus[k].at.ReleaseSwap?
    ensures var s' := Step(s, lock, k, Next);
            LockOk(s', lock) && s'.mem[lock] == 0 && Reg(s'.cpus[k].regs, T0) == 1
  {
    assert Holds(s.cpus[k]);
    var h :| SoleHolder(s, h);
    assert h == k;
  }

  /** Every step, whichever processor takes it, keeps the lock right. */
  lemma StepKeeps(s: State, lock: Word, k: nat, a: Action)
    requires LockOk(s, lock) && Enabled(s, lock, k, a)
    ensures LockOk(Step(s, lock, k, a), lock)
  {
    var s' := Step(s, lock, k, a);
    if a.Next? && s.cpus[k].at.Retry? {
      RetryKeeps(s, lock, k);
    } else if a.Next? && s.cpus[k].at.ReleaseSwap? {
      ReleaseKeeps(s, lock, k);
    } else {
      assert CpuOk(s.cpus[k], lock);
      SameHolders(s, s', lock, k);
    }
  }

  datatype Turn = Turn(cpu: nat, action: Action)

  /** Every turn is one its processor can take where it then is. */
  ghost predicate LegalRun(s: State, lock: Word, turns: seq<Turn>)
    requires LockOk(s, lock)
    decreases |turns|
  {
    turns == [] ||
    (Enabled(s, lock, turns[0].cpu, turns[0].action) &&
     (StepKeeps(s, lock, turns[0].cpu, turns[0].action);
      LegalRun(Step(s, lock, turns[0].cpu, turns[0].action), lock, turns[1..])))
  }

  ghost function Run(s: State, lock: Word, turns: seq<Turn>): State
    requires LockOk(s, lock) && LegalRun(s, lock, turns)
    decreases |turns|
  {
    if turns == [] then s
    else
      StepKeeps(s, lock, turns[0].cpu, turns[0].action);
      Run(Step(s, lock, turns[0].cpu, turns[0].action), lock, turns[1..])
  }

  /** Everyone outside and the lock free. */
  ghost predicate Initial(s: State, lock: Word) {
    lock in s.mem && s.mem[lock] == 0 && forall k :: 0 <= k < |s.cpus| ==> s.cpus[k].at.Outside?
  }

  /** In every interleaving from a free lock: the word is 0 or 1, it is 1 exactly
      while somebody holds the lock, and no two processors are ever inside. */
  lemma MutualExclusion(s: State, lock: Word, turns: seq<Turn>)
    requires Initial(s, lock) && LegalRun(s, lock, turns)
    ensures var e := Run(s, lock, turns);
            && lock in e.mem && (e.mem[lock] == 0 || e.mem[lock] == 1)
            && (e.mem[lock] == 1 <==> exists h :: SoleHolder(e, h))
            && forall i, k | 0 <= i < |e.cpus| && 0 <= k < |e.cpus| ::
                 e.cpus[i].at.Inside? && e.cpus[k].at.Inside? ==> i == k
  {
    RunKeeps(s, lock, turns);
    var e := Run(s, lock, turns);
    if h: nat :| SoleHolder(e, h) { assert Holds(e.cpus[h]); }
    assert forall i :: 0 <= i < |e.cpus| && e.cpus[i].at.Inside? ==> Holds(e.cpus[i]);
  }

  lemma {:induction false} RunKeeps(s: State, lock: Word, turns: seq<Turn>)
    requires LockOk(s, lock) && LegalRun(s, lock, turns)
    ensures LockOk(Run(s, lock, turns), lock)
    decreases |turns|
  {
    hide LockOk, Step;
    if turns != [] {
      StepKeeps(s, lock, turns[0].cpu, turns[0].action);
      RunKeeps(Step(s, lock, turns[0].cpu, turns[0].action), lock, turns[1..]);
    }
  }

  /** A free lock is had in five instructions by a processor left alone. */
  lemma AcquiresAlone(s: State, lock: Word, k: nat)
    requires LockOk(s, lock) && k < |s.cpus| && s.mem[lock] == 0 && s.cpus[k].at.AcquireLi0?
    ensures var t := Turn(k, Next);
            && LegalRun(s, lock, [t, t, t, t, t])
            && var e := Run(s, lock, [t, t, t, t, t]);
               SoleHolder(e, k) && e.cpus[k].at.Inside?
  {
    var t := Turn(k, Next);
    var s1 := Advance(s, lock, k);
    var s2 := Advance(s1, lock, k);
    RetryKeeps(s2, lock, k);
    var s3 := Advance(s2, lock, k);
    assert Holds(s3.cpus[k]);
    var s4 := Advance(s3, lock, k);
    var s5 := Advance(s4, lock, k);
    var h :| SoleHolder(s5, h);
    assert Holds(s5.cpus[k]);
    hide LockOk, Step;
    assert [t, t, t, t, t][1..] == [t, t, t, t] && [t, t, t, t][1..] == [t, t, t] && [t, t, t][1..] == [t, t];
    assert [t, t][1..] == [t] && [t][1..] == [];
    assert LegalRun(s5, lock, []) && Run(s5, lock, []) == s5;
    assert LegalRun(s4, lock, [t]) && Run(s4, lock, [t]) == s5;
    assert LegalRun(s3, lock, [t, t]) && Run(s3, lock, [t, t]) == s5;
    assert LegalRun(s2, lock, [t, t, t]) && Run(s2, lock, [t, t, t]) == s5;
    assert LegalRun(s1, lock, [t, t, t, t]) && Run(s1, lock, [t, t, t, t]) == s5;
  }

  lemma Advance(s: State, lock: Word, k: nat) returns (s': State)
    requires LockOk(s, lock) && Enabled(s, lock, k, Next)
    ensures s' == Step(s, lock, k, Next) && LockOk(s', lock)
  {
    StepKeeps(s, lock, k, Next);
    s' := Step(s, lock, k, Next);
  }

  /** Called on a free lock by a processor left alone, acquiring takes the call and five
      instructions. */
  lemma EntersAlone(s: State, lock: Word, k: nat)
    requires LockOk(s, lock) && k < |s.cpus| && s.mem[lock] == 0
    requires s.cpus[k].at.Outside? && Reg(s.cpus[k].regs, A0) == lock
    ensures var t := Turn(k, Next);
            && LegalRun(s, lock, [Turn(k, Call), t, t, t, t, t])
            && var e := Run(s, lock, [Turn(k, Call), t, t, t, t, t]);
               SoleHolder(e, k) && e.cpus[k].at.Inside?
  {
    var t := Turn(k, Next);
    StepKeeps(s, lock, k, Call);
    var s1 := Step(s, lock, k, Call);
    AcquiresAlone(s1, lock, k);
    hide LockOk, Step, SoleHolder;
    assert [Turn(k, Call), t, t, t, t, t][1..] == [t, t, t, t, t];
  }

  /** Called by the processor inside, releasing takes the call and two instructions, and
      leaves the lock free and nobody inside. */
  lemma LeavesAlone(s: State, lock: Word, k: nat)
    requires LockOk(s, lock) && k < |s.cpus| && s.cpus[k].at.Inside? && Reg(s.cpus[k].regs, A0) == lock
    ensures var t := Turn(k, Next);
            && LegalRun(s, lock, [Turn(k, Call), t, t])
            && var e := Run(s, lock, [Turn(k, Call), t, t]);
               && lock in e.mem && e.mem[lock] == 0 && k < |e.cpus| && e.cpus[k].at.Outside?
               && forall i :: 0 <= i < |e.cpus| ==> !e.cpus[i].at.Inside?
  {
    var t := Turn(k, Next);
    StepKeeps(s, lock, k, Call);
    var s1 := Step(s, lock, k, Call);
    var s2 := Advance(s1, lock, k);
    ReleaseKeeps(s2, lock, k);
    var s3 := Advance(s2, lock, k);
    assert forall i :: 0 <= i < |s3.cpus| && s3.cpus[i].at.Inside? ==> Holds(s3.cpus[i]);
    hide LockOk, Step;
    assert [Turn(k, Call), t, t][1..] == [t, t] && [t, t][1..] == [t] && [t][1..] == [];
    assert LegalRun(s3, lock, []) && Run(s3, lock, []) == s3;
    assert LegalRun(s2, lock, [t]) && Run(s2, lock, [t]) == s3;
    assert LegalRun(s1, lock, [t, t]) && Run(s1, lock, [t, t]) == s3;
  }
}
