/** Address translation: the table of entries, its lookup, the faults and the
    services a fault handler uses. */
module Tlbs {
  import opened Words
  import opened Bits

  const PAGE := 0x1000
  const ASID_STEP := 0x40
  const ASIDS := 64
  const LO_STEP := 0x100
  const SIGN_MASK: Word := 0x8000_0000
  const KUSEG_BASE := 0x8000_0000
  const INDEX_STEP := 0x100

  /** The page of an address, or of an EntryHi, or the frame of an EntryLo: bits 12
      and up. */
  function Vpn(w: Word): Word {
    w / PAGE * PAGE
  }

  /** Bits 6 to 11 of an EntryHi. */
  function Asid(w: Word): Word {
    w / ASID_STEP % ASIDS * ASID_STEP
  }

  /** Bits put together come apart again. */
  lemma Fields(page: nat, asid: nat, low: nat)
    requires page < WORD_SIZE / PAGE && asid < ASIDS && low < ASID_STEP
    ensures var w := page * PAGE + asid * ASID_STEP + low;
            w < WORD_SIZE && w / PAGE == page && w / ASID_STEP % ASIDS == asid && w % PAGE == asid * ASID_STEP + low
  {
    var w := page * PAGE + asid * ASID_STEP + low;
    assert w / ASID_STEP == page * ASIDS + asid;
  }

  /** The page of one word joined with the address space of another. */
  function Join(vaddr: Word, hi: Word): (r: Word)
    ensures Vpn(r) == Vpn(vaddr) && Asid(r) == Asid(hi)
  {
    Fields(vaddr / PAGE, hi / ASID_STEP % ASIDS, 0);
    Vpn(vaddr) + Asid(hi)
  }

  /** The frame of one word joined with the offset of another. */
  function PhAddr(vaddr: Word, lo: Word): (r: Word)
    ensures Vpn(r) == Vpn(lo) && r % PAGE == vaddr % PAGE
  {
    vaddr % PAGE + Vpn(lo)
  }

  /** An entry: page and address space above, frame and control bits below. */
  datatype Entry = Entry(hi: Word, lo: Word)

  /** What an entry keeps of the words written to it. */
  function Installed(hi: Word, lo: Word): Entry {
    Entry(hi / ASID_STEP * ASID_STEP, lo / LO_STEP * LO_STEP)
  }

  predicate Flag(w: Word, place: nat)
    requires place > 0
  {
    w / place % 2 == 1
  }

  predicate IsGlobal(lo: Word) {
    Flag(lo, 0x100)
  }

  predicate IsValid(lo: Word) {
    Flag(lo, 0x200)
  }

  predicate IsDirty(lo: Word) {
    Flag(lo, 0x400)
  }

  predicate Matches(e: Entry, asid: Word, vaddr: Word) {
    Vpn(e.hi) == Vpn(vaddr) && (IsGlobal(e.lo) || Asid(e.hi) == Asid(asid))
  }

  /** The entries above `k` that match: none. */
  predicate NoneFrom(tlb: seq<Entry>, k: nat, asid: Word, vaddr: Word) {
    forall i :: k <= i < |tlb| ==> !Matches(tlb[i], asid, vaddr)
  }

  /** Index of the highest matching entry. */
  function Probe(tlb: seq<Entry>, asid: Word, vaddr: Word): (r: Option<nat>)
    ensures r.None? ==> NoneFrom(tlb, 0, asid, vaddr)
    ensures r.Some? ==> r.value < |tlb| && Matches(tlb[r.value], asid, vaddr) && NoneFrom(tlb, r.value + 1, asid, vaddr)
  {
    if tlb == [] then None
    else
      var last := |tlb| - 1;
      if Matches(tlb[last], asid, vaddr) then Some(last) else Probe(tlb[..last], asid, vaddr)
  }

  lemma ProbeIs(tlb: seq<Entry>, asid: Word, vaddr: Word, i: nat)
    requires i < |tlb| && Matches(tlb[i], asid, vaddr) && NoneFrom(tlb, i + 1, asid, vaddr)
    ensures Probe(tlb, asid, vaddr) == Some(i)
  {
    hide Matches;
  }

  datatype Access = Read | Write | Exec

  datatype Fault = StoreAccess | LoadAccess | Modified | InvalidStore | InvalidLoad | RefillStore | RefillLoad

  datatype Mapping = Mapped(paddr: Word) | Refused(fault: Fault)

  /** The part of a processor that translation uses. */
  datatype Mmu = Mmu(tlb: seq<Entry>, user: bool, floor: Word, entryHi: Word, entryLo: Word,
                     index: Word, random: Word, badVAddr: Word)

  predicate Unaligned(vaddr: Word) {
    vaddr % 4 != 0
  }

  /** An access that the table has no say in. */
  predicate Outside(m: Mmu, vaddr: Word) {
    Unaligned(vaddr) || (m.user && vaddr < KUSEG_BASE) || vaddr < m.floor
  }

  function Translate(m: Mmu, vaddr: Word, access: Access): Mapping {
    if Unaligned(vaddr) || (m.user && vaddr < KUSEG_BASE) then
      Refused(if access.Write? then StoreAccess else LoadAccess)
    else if vaddr < m.floor then Mapped(vaddr)
    else
      match Probe(m.tlb, m.entryHi, vaddr)
      case None => Refused(if access.Write? then RefillStore else RefillLoad)
      case Some(i) =>
        var lo := m.tlb[i].lo;
        if !IsValid(lo) then Refused(if access.Write? then InvalidStore else InvalidLoad)
        else if access.Write? && !IsDirty(lo) then Refused(Modified)
        else Mapped(PhAddr(vaddr, lo))
  }

  /** The registers after an access: a fault the table raised leaves the page and
      the address space in EntryHi, ready for the handler. */
  function AfterAccess(m: Mmu, vaddr: Word, access: Access): Mmu {
    var r := Translate(m, vaddr, access);
    if r.Mapped? then m
    else if r.fault.StoreAccess? || r.fault.LoadAccess? then m.(badVAddr := vaddr)
    else m.(badVAddr := vaddr, entryHi := Join(vaddr, m.entryHi))
  }

  // ---------------------------------------------------------------- services

  function IndexOf(i: nat): (w: Word)
    requires i < 64
    ensures w < SIGN_MASK
  {
    i * INDEX_STEP
  }

  /** The slot an index register names: bits 8 to 30. */
  function SlotOf(index: Word): (i: nat)
    ensures forall k :: 0 <= k < 64 && index == IndexOf(k) ==> i == k
  {
    index % SIGN_MASK / INDEX_STEP
  }

  function Tlbp(m: Mmu): Mmu
    requires |m.tlb| <= 64
  {
    match Probe(m.tlb, m.entryHi, m.entryHi)
    case None => m.(index := SIGN_MASK)
    case Some(i) => m.(index := IndexOf(i))
  }

  function Tlbr(m: Mmu): Mmu
    requires SlotOf(m.index) < |m.tlb|
  {
    m.(entryHi := m.tlb[SlotOf(m.index)].hi, entryLo := m.tlb[SlotOf(m.index)].lo)
  }

  function Tlbwi(m: Mmu): Mmu
    requires SlotOf(m.index) < |m.tlb|
  {
    m.(tlb := m.tlb[SlotOf(m.index) := Installed(m.entryHi, m.entryLo)])
  }

  function Tlbwr(m: Mmu): Mmu
    requires SlotOf(m.random) < |m.tlb|
  {
    m.(tlb := m.tlb[SlotOf(m.random) := Installed(m.entryHi, m.entryLo)])
  }

  /** Every entry but the first. */
  function Tlbclr(m: Mmu): Mmu {
    m.(tlb := seq(|m.tlb|, i requires 0 <= i < |m.tlb| => if i == 0 then m.tlb[0] else Installed(0, 0)))
  }

  /** Bitwise and. */
  function And(a: nat, b: nat): (r: nat)
    ensures r <= a && r <= b
  {
    if a == 0 || b == 0 then 0 else 2 * And(a / 2, b / 2) + (a % 2) * (b % 2)
  }

  lemma SlotBound(index: nat, slots: nat)
    requires 0 < slots <= 64 && index <= IndexOf(slots - 1)
    ensures SlotOf(index) < slots
  {
    assert index % SIGN_MASK == index;
  }

  /** One step down, within the bits of the highest slot number. */
  function RandomTick(m: Mmu): (r: Mmu)
    requires 0 < |m.tlb| <= 64
    ensures SlotOf(r.random) < |m.tlb|
  {
    SlotBound(And((m.random + WORD_SIZE - INDEX_STEP) % WORD_SIZE, IndexOf(|m.tlb| - 1)), |m.tlb|);
    m.(random := And((m.random + WORD_SIZE - INDEX_STEP) % WORD_SIZE, IndexOf(|m.tlb| - 1)))
  }

  // ---------------------------------------------------------------- the abstract map

  /** A page number and an address space number. */
  type PageKey = (nat, nat)

  function KeyOf(asid: Word, vaddr: Word): PageKey {
    (vaddr / 0x1000, asid / 0x40 % 0x40)
  }

  /** Keys tell pages and address spaces apart as the masked words do. */
  lemma SameKey(asid: Word, vaddr: Word, hi: Word)
    ensures KeyOf(asid, vaddr).0 == KeyOf(hi, hi).0 <==> Vpn(hi) == Vpn(vaddr)
    ensures KeyOf(asid, vaddr).1 == KeyOf(hi, hi).1 <==> Asid(hi) == Asid(asid)
  {
  }

  /** An entry translates one page, in one address space or, if it is global (bit
      8), in every one. */
  predicate Covers(e: Entry, k: PageKey) {
    k.0 == KeyOf(e.hi, e.hi).0 && (e.lo / 0x100 % 2 == 1 || k.1 == KeyOf(e.hi, e.hi).1)
  }

  ghost function Covered(e: Entry): imap<PageKey, Word> {
    imap k: PageKey | Covers(e, k) :: e.lo
  }

  lemma CoversIs(e: Entry, asid: Word, vaddr: Word)
    ensures Covers(e, KeyOf(asid, vaddr)) <==> Matches(e, asid, vaddr)
  {
    hide Vpn, Asid, KeyOf;
    SameKey(asid, vaddr, e.hi);
  }

  /** The page map a table stands for: entries laid over one another, the last on
      top. */
  ghost function Space(tlb: seq<Entry>): imap<PageKey, Word> {
    if tlb == [] then imap[] else Space(tlb[..|tlb| - 1]) + Covered(tlb[|tlb| - 1])
  }

  /** The translation of a page in an address space: frame and control bits. */
  ghost function Page(m: Mmu, asid: Word, vaddr: Word): Option<Word> {
    var k := KeyOf(asid, vaddr);
    if k in Space(m.tlb) then Some(Space(m.tlb)[k]) else None
  }

  /** Probing looks up the page map. */
  lemma {:induction false} ProbeLooksUp(tlb: seq<Entry>, asid: Word, vaddr: Word)
    ensures var k := KeyOf(asid, vaddr);
            match Probe(tlb, asid, vaddr)
            case None => k !in Space(tlb)
            case Some(i) => k in Space(tlb) && Space(tlb)[k] == tlb[i].lo
  {
    hide Matches, Covers, KeyOf;
    if tlb == [] {
    } else {
      CoversIs(tlb[|tlb| - 1], asid, vaddr);
      ProbeLooksUp(tlb[..|tlb| - 1], asid, vaddr);
    }
  }

  /** The outcome the page map decides: which fault, or which address.  Bit 9 of a
      translation is V, bit 10 is D. */
  predicate Decided(r: Mapping, p: Option<Word>, vaddr: Word, access: Access) {
    var valid, dirty := p.Some? && p.value / 0x200 % 2 == 1, p.Some? && p.value / 0x400 % 2 == 1;
    && (r == Refused(if access.Write? then RefillStore else RefillLoad) <==> p.None?)
    && (r == Refused(if access.Write? then InvalidStore else InvalidLoad) <==> p.Some? && !valid)
    && (r == Refused(Modified) <==> access.Write? && valid && !dirty)
    && (r.Mapped? <==> valid && (access.Write? ==> dirty))
    && (r.Mapped? ==> r.paddr / 0x1000 == p.value / 0x1000 && r.paddr % 0x1000 == vaddr % 0x1000)
  }

  lemma SameFrame(a: Word, b: Word)
    requires Vpn(a) == Vpn(b)
    ensures a / 0x1000 == b / 0x1000
  {
  }

  lemma TranslationIs(m: Mmu, vaddr: Word, access: Access)
    requires !Outside(m, vaddr)
    ensures Decided(Translate(m, vaddr, access), Page(m, m.entryHi, vaddr), vaddr, access)
  {
    hide Probe, Space, Vpn, KeyOf;
    ProbeLooksUp(m.tlb, m.entryHi, vaddr);
    var r := Translate(m, vaddr, access);
    if r.Mapped? {
      SameFrame(r.paddr, m.tlb[Probe(m.tlb, m.entryHi, vaddr).value].lo);
    }
  }

  /** What an access answers, and the registers it leaves: a bad address is refused
      with an access fault, an address below the floor stands for itself, and the
      page map decides the others.  Only faults leave a mark: the address, and for
      faults of the page map its page in EntryHi, in the same address space. */
  ghost predicate Answers(m: Mmu, vaddr: Word, access: Access, r: Mapping, m': Mmu) {
    var bad := vaddr % 4 != 0 || (m.user && vaddr < 0x8000_0000);
    && (r == Refused(StoreAccess) <==> bad && access.Write?)
    && (r == Refused(LoadAccess) <==> bad && !access.Write?)
    && (!bad && vaddr < m.floor ==> r == Mapped(vaddr))
    && (!bad && vaddr >= m.floor ==> Decided(r, Page(m, m.entryHi, vaddr), vaddr, access))
    && (r.Mapped? ==> m' == m)
    && (r.Refused? ==> m' == m.(badVAddr := vaddr, entryHi := m'.entryHi))
    && (bad ==> m'.entryHi == m.entryHi)
    && (r.Refused? && !bad ==> KeyOf(m'.entryHi, m'.entryHi) == KeyOf(m.entryHi, vaddr))
  }

  lemma AccessAnswers(m: Mmu, vaddr: Word, access: Access)
    ensures Answers(m, vaddr, access, Translate(m, vaddr, access), AfterAccess(m, vaddr, access))
  {
    hide Probe, Page, KeyOf, Vpn, Asid;
    if !Outside(m, vaddr) { TranslationIs(m, vaddr, access); }
    var saved := Join(vaddr, m.entryHi);
    SameKey(m.entryHi, vaddr, saved);
    assert KeyOf(saved, saved) == KeyOf(m.entryHi, vaddr);
  }

  /** A page that is in one address space and not in another is not global. */
  lemma {:induction false} GlobalIsEverywhere(tlb: seq<Entry>, page: nat, a: nat, b: nat)
    requires (page, a) !in Space(tlb) && (page, b) in Space(tlb)
    ensures Space(tlb)[(page, b)] / 0x100 % 2 == 0 && a != b
  {
    hide KeyOf;
    var n := |tlb| - 1;
    assert (page, a) !in Covered(tlb[n]) && (page, a) !in Space(tlb[..n]);
    if (page, b) !in Covered(tlb[n]) { GlobalIsEverywhere(tlb[..n], page, a, b); }
  }

  /** The page map does not look below the page number, nor past the address space
      number; and a page that is not global belongs to one address space. */
  lemma PageDependsOn(m: Mmu, a: Word, b: Word, va: Word, vb: Word)
    requires va / 0x1000 == vb / 0x1000
    ensures a / 0x40 % 0x40 == b / 0x40 % 0x40 ==> Page(m, a, va) == Page(m, b, vb)
    ensures Page(m, a, va).None? && Page(m, b, vb).Some? ==>
              Page(m, b, vb).value / 0x100 % 2 == 0 && a / 0x40 % 0x40 != b / 0x40 % 0x40
  {
    hide Space;
    if Page(m, a, va).None? && Page(m, b, vb).Some? {
      GlobalIsEverywhere(m.tlb, va / 0x1000, a / 0x40 % 0x40, b / 0x40 % 0x40);
    }
  }

  // ---------------------------------------------------------------- the fault handler

  lemma InstalledKeeps(hi: Word, lo: Word)
    ensures var e := Installed(hi, lo);
            && Vpn(e.hi) == Vpn(hi) && Asid(e.hi) == Asid(hi) && Vpn(e.lo) == Vpn(lo)
            && IsGlobal(e.lo) == IsGlobal(lo) && IsValid(e.lo) == IsValid(lo) && IsDirty(e.lo) == IsDirty(lo)
  {
    hide Flag;
    HiKept(hi);
    LoKept(lo);
  }

  lemma HiKept(hi: Word)
    ensures var v := hi / ASID_STEP * ASID_STEP; v / ASID_STEP == hi / ASID_STEP && v / PAGE == hi / PAGE
  {
    var q := hi / ASID_STEP;
    assert q / ASIDS == hi / PAGE && q * ASID_STEP / PAGE == q / ASIDS;
  }

  lemma LoKept(lo: Word)
    ensures var v := lo / LO_STEP * LO_STEP;
            && v / PAGE == lo / PAGE
            && IsGlobal(v) == IsGlobal(lo) && IsValid(v) == IsValid(lo) && IsDirty(v) == IsDirty(lo)
  {
    var q := lo / LO_STEP;
    assert q * LO_STEP / 0x100 == q;
    assert q * LO_STEP / 0x200 == q / 2 == lo / 0x200;
    assert q * LO_STEP / 0x400 == q / 4 == lo / 0x400;
    assert q * LO_STEP / PAGE == q / 16 == lo / PAGE;
  }

  /** After a fault raised by the table, probing for the saved EntryHi finds what
      the faulting access found: nothing after a refill fault, the entry at fault
      after the others. */
  lemma FaultThenProbe(m: Mmu, vaddr: Word, access: Access)
    requires |m.tlb| <= 64 && !Outside(m, vaddr) && Translate(m, vaddr, access).Refused?
    ensures var f := Translate(m, vaddr, access).fault;
            var m' := Tlbp(AfterAccess(m, vaddr, access));
            && m'.tlb == m.tlb && m'.badVAddr == vaddr
            && (f.RefillLoad? || f.RefillStore? <==> m'.index == SIGN_MASK)
            && (!(f.RefillLoad? || f.RefillStore?) ==> Some(SlotOf(m'.index)) == Probe(m.tlb, m.entryHi, vaddr))
  {
    hide IndexOf, SlotOf, IsValid, IsDirty, Vpn, Asid, Matches;
    var saved := Join(vaddr, m.entryHi);
    ProbeAgrees(m.tlb, m.entryHi, vaddr, saved, saved);
    var p := Probe(m.tlb, m.entryHi, vaddr);
    if p.Some? {
      assert SlotOf(IndexOf(p.value)) == p.value;
    }
  }

  lemma ProbeAgrees(tlb: seq<Entry>, a: Word, va: Word, b: Word, vb: Word)
    requires Vpn(va) == Vpn(vb) && Asid(a) == Asid(b)
    ensures Probe(tlb, a, va) == Probe(tlb, b, vb)
  {
    hide Vpn, Asid, IsGlobal, Probe;
    var q := Probe(tlb, b, vb);
    if q.Some? {
      ProbeIs(tlb, a, va, q.value);
    } else {
      assert NoneFrom(tlb, 0, a, va);
    }
  }

  /** Writing the saved EntryHi into slot `i` makes it the translation of the page
      exactly when no higher entry matches it. */
  lemma InstallTakesIff(m: Mmu, i: nat, asid: Word, vaddr: Word, lo: Word)
    requires i < |m.tlb|
    ensures var m' := m.(tlb := m.tlb[i := Installed(Join(vaddr, asid), lo)]);
            Probe(m'.tlb, asid, vaddr) == Some(i) <==> NoneFrom(m.tlb, i + 1, asid, vaddr)
  {
    var e := Installed(Join(vaddr, asid), lo);
    InstalledKeeps(Join(vaddr, asid), lo);
    assert Matches(e, asid, vaddr);
    hide Matches, Probe;
    var tlb' := m.tlb[i := e];
    if NoneFrom(m.tlb, i + 1, asid, vaddr) { ProbeIs(tlb', asid, vaddr, i); }
    if Probe(tlb', asid, vaddr) == Some(i) {
      assert forall k :: i + 1 <= k < |m.tlb| ==> tlb'[k] == m.tlb[k];
    }
  }

  /** Installing a page changes no other page, except that pages held by the
      overwritten slot may be lost. */
  lemma InstallKeepsOthers(m: Mmu, i: nat, e: Entry, asid: Word, vaddr: Word)
    requires i < |m.tlb| && !Matches(e, asid, vaddr) && Probe(m.tlb, asid, vaddr) != Some(i)
    ensures Page(m.(tlb := m.tlb[i := e]), asid, vaddr) == Page(m, asid, vaddr)
  {
    hide Matches, Probe, Space;
    var tlb' := m.tlb[i := e];
    var p := Probe(m.tlb, asid, vaddr);
    ProbeLooksUp(m.tlb, asid, vaddr);
    ProbeLooksUp(tlb', asid, vaddr);
    if p.Some? {
      ProbeIs(tlb', asid, vaddr, p.value);
    } else {
      assert NoneFrom(tlb', 0, asid, vaddr);
    }
  }

  /** What a handler loads for an access to go through. */
  predicate Allows(lo: Word, access: Access) {
    IsValid(lo) && (access.Write? ==> IsDirty(lo))
  }

  lemma InstalledTranslates(m: Mmu, i: nat, vaddr: Word, access: Access, lo: Word)
    requires i < |m.tlb| && !Outside(m, vaddr) && NoneFrom(m.tlb, i + 1, m.entryHi, vaddr) && Allows(lo, access)
    ensures var hi := Join(vaddr, m.entryHi);
            var m' := m.(entryHi := hi, tlb := m.tlb[i := Installed(hi, lo)]);
            Translate(m', vaddr, access) == Mapped(PhAddr(vaddr, lo))
  {
    hide Matches, Probe, IsGlobal, IsValid, IsDirty, Vpn, Asid;
    var hi := Join(vaddr, m.entryHi);
    InstallTakesIff(m, i, m.entryHi, vaddr, lo);
    ProbeAgrees(m.tlb[i := Installed(hi, lo)], m.entryHi, vaddr, hi, hi);
    ProbeAgrees(m.tlb[i := Installed(hi, lo)], hi, hi, hi, vaddr);
    InstalledKeeps(hi, lo);
  }

  /** A refill handler that loads a permitting EntryLo and writes it to a random
      slot, or to any slot by index, makes the faulting access translate. */
  lemma RefillThenRetry(m: Mmu, vaddr: Word, access: Access, lo: Word, index: Word)
    requires SlotOf(m.random) < |m.tlb| && SlotOf(index) < |m.tlb| && Allows(lo, access)
    requires Translate(m, vaddr, access) in {Refused(RefillLoad), Refused(RefillStore)}
    ensures var h := AfterAccess(m, vaddr, access).(entryLo := lo);
            var paddr := PhAddr(vaddr, lo);
            && Translate(Tlbwr(h), vaddr, access) == Mapped(paddr)
            && Translate(Tlbwi(h.(index := index)), vaddr, access) == Mapped(paddr)
  {
    hide Matches, SlotOf, Vpn, Asid, Allows, IsValid, IsDirty, Installed;
    assert Probe(m.tlb, m.entryHi, vaddr).None? by { hide Probe; }
    hide Probe;
    var h := AfterAccess(m, vaddr, access).(entryLo := lo);
    var i, k := SlotOf(m.random), SlotOf(index);
    InstalledTranslates(m, i, vaddr, access, lo);
    InstalledTranslates(m, k, vaddr, access, lo);
    SameTranslation(Tlbwr(h), m.(entryHi := h.entryHi, tlb := Tlbwr(h).tlb), vaddr, access);
    var w := Tlbwi(h.(index := index));
    SameTranslation(w, m.(entryHi := h.entryHi, tlb := w.tlb), vaddr, access);
  }

  /** The other faults: the handler probes, loads a permitting EntryLo and writes
      it where the probe found the entry. */
  lemma RepairThenRetry(m: Mmu, vaddr: Word, access: Access, lo: Word)
    requires |m.tlb| <= 64 && Allows(lo, access)
    requires Translate(m, vaddr, access) in {Refused(InvalidLoad), Refused(InvalidStore), Refused(Modified)}
    ensures var h := Tlbp(AfterAccess(m, vaddr, access)).(entryLo := lo);
            && SlotOf(h.index) < |m.tlb|
            && Translate(Tlbwi(h), vaddr, access) == Mapped(PhAddr(vaddr, lo))
  {
    hide Matches, SlotOf, IndexOf, Vpn, Asid, Allows, IsValid, IsDirty, Probe, Installed;
    FaultThenProbe(m, vaddr, access);
    var h := Tlbp(AfterAccess(m, vaddr, access)).(entryLo := lo);
    InstalledTranslates(m, SlotOf(h.index), vaddr, access, lo);
    SameTranslation(Tlbwi(h), m.(entryHi := h.entryHi, tlb := Tlbwi(h).tlb), vaddr, access);
  }

  /** Reading back a written entry gives the two words with their reserved bits
      cleared. */
  lemma WriteThenRead(m: Mmu, hi: Word, lo: Word)
    requires SlotOf(m.index) < |m.tlb|
    ensures var w := Tlbwi(m);
            var r := Tlbr(w.(entryHi := hi, entryLo := lo));
            r == w.(entryHi := m.entryHi - m.entryHi % 0x40, entryLo := m.entryLo - m.entryLo % 0x100)
  {
  }

  lemma ClearIs(m: Mmu)
    requires m.tlb != []
    ensures Tlbclr(m).tlb == [m.tlb[0]] + seq(|m.tlb| - 1, _ => Entry(0, 0))
  {
    assert Installed(0, 0) == Entry(0, 0);
  }

  lemma ZeroCovers(k: PageKey)
    ensures Covers(Entry(0, 0), k) <==> k == (0, 0)
  {
  }

  /** After TLBCLR the first entry alone decides, except that page 0 of address space
      0 is held by the cleared entries, as an invalid page. */
  lemma {:induction false} ClearLeavesFirst(e: Entry, n: nat, k: PageKey)
    ensures var space := Space([e] + seq(n, _ => Entry(0, 0)));
            if k == (0, 0) && n > 0 then k in space && space[k] == 0
            else (k in space <==> k in Covered(e)) && (k in space ==> space[k] == e.lo)
  {
    hide Covers;
    var tlb := [e] + seq(n, _ => Entry(0, 0));
    if n == 0 {
      assert tlb[..0] == [] && tlb[0] == e;
      assert Space(tlb) == imap[] + Covered(e);
    } else {
      assert tlb[..n] == [e] + seq(n - 1, _ => Entry(0, 0));
      ClearLeavesFirst(e, n - 1, k);
      ZeroCovers(k);
    }
  }

  // ---------------------------------------------------------------- the random index

  lemma AndTwice(a: nat, b: nat)
    ensures And(a, 2 * b) == 2 * And(a / 2, b)
  {
  }

  lemma AndSixteen(a: nat, b: nat)
    ensures And(a, 16 * b) == 16 * And(a / 16, b)
  {
    hide And;
    AndTwice(a, 8 * b);
    AndTwice(a / 2, 4 * b);
    AndTwice(a / 4, 2 * b);
    AndTwice(a / 8, b);
    assert a / 2 / 2 == a / 4 && a / 4 / 2 == a / 8 && a / 8 / 2 == a / 16;
  }

  /** The low byte of an index register takes no part. */
  lemma AndIndex(a: nat, b: nat)
    ensures And(a, INDEX_STEP * b) == INDEX_STEP * And(a / INDEX_STEP, b)
  {
    hide And;
    AndSixteen(a, 16 * b);
    AndSixteen(a / 16, b);
    assert a / 16 / 16 == a / INDEX_STEP;
  }

  lemma AndNothing(a: nat)
    ensures And(a, 0) == 0 && a % 1 == 0
  {
  }

  lemma AndOdd(a: nat, b: nat)
    ensures And(a, 2 * b + 1) == 2 * And(a / 2, b) + a % 2
  {
    assert (2 * b + 1) / 2 == b && (2 * b + 1) % 2 == 1;
  }

  /** One less than a power of two cuts out the low bits. */
  lemma {:induction false} AndMask(a: nat, k: nat)
    ensures And(a, Pow2(k) - 1) == a % Pow2(k)
  {
    hide And;
    if k > 0 {
      var p := Pow2(k - 1);
      AndMask(a / 2, k - 1);
      HalfFirst(a, p);
      AndOdd(a, p - 1);
    } else {
      AndNothing(a);
    }
  }

  lemma HalfIsNoPower(b: nat)
    requires b % 2 == 1
    ensures IsPow2(b / 2 + 1) ==> IsPow2(b + 1)
  {
    if IsPow2(b / 2 + 1) {
      var k: nat :| b / 2 + 1 == Pow2(k);
      assert Pow2(k + 1) == 2 * Pow2(k);
    }
  }

  /** Any other number misses some value below it. */
  lemma {:induction false} AndMisses(b: nat) returns (s: nat)
    requires !IsPow2(b + 1)
    ensures s <= b && forall a: nat :: And(a, b) != s
  {
    assert b > 0 by { assert Pow2(0) == 1; }
    if b % 2 == 0 {
      s := 1;
      forall a: nat ensures And(a, b) != 1 {
        assert a % 2 * (b % 2) == 0;
      }
    } else {
      HalfIsNoPower(b);
      var h := AndMisses(b / 2);
      s := 2 * h;
      forall a: nat ensures And(a, b) != s {
        assert And(a, b) == (if a == 0 then 0 else 2 * And(a / 2, b / 2) + a % 2);
        assert And(a / 2, b / 2) != h && And(0, b / 2) != h;
      }
    }
  }

  lemma RandomIs(m: Mmu)
    requires 0 < |m.tlb| <= 64
    ensures var a := (m.random + WORD_SIZE - INDEX_STEP) % WORD_SIZE;
            SlotOf(RandomTick(m).random) == And(a / INDEX_STEP, |m.tlb| - 1)
  {
    hide And, SlotOf;
    var a := (m.random + WORD_SIZE - INDEX_STEP) % WORD_SIZE;
    AndIndex(a, |m.tlb| - 1);
    assert RandomTick(m).random == IndexOf(And(a / INDEX_STEP, |m.tlb| - 1));
  }

  /** In a table whose size is a power of two the random index goes down slot by slot
      and round again. */
  lemma RandomSteps(m: Mmu, k: nat)
    requires 0 < |m.tlb| <= 64 && |m.tlb| == Pow2(k)
    ensures SlotOf(RandomTick(m).random) == (SlotOf(m.random) + |m.tlb| - 1) % |m.tlb|
  {
    var n := |m.tlb|;
    var a := (m.random + WORD_SIZE - INDEX_STEP) % WORD_SIZE / INDEX_STEP;
    SizeBound(k);
    assert n in {1, 2, 4, 8, 16, 32, 64};
    RandomIs(m);
    AndMask(a, k);
    hide And, RandomTick, Pow2;
    SlotStepsDown(m.random, n);
  }

  lemma Periodic(x: nat, n: nat, t: nat)
    requires n > 0
    ensures (x + t * n) % n == x % n
  {
    assert x + t * n == (x / n + t) * n + x % n;
    DivisionIs(x + t * n, n, x / n + t, x % n);
  }

  lemma SlotStepsDown(random: Word, n: nat)
    requires n in {1, 2, 4, 8, 16, 32, 64}
    ensures (random + WORD_SIZE - INDEX_STEP) % WORD_SIZE / INDEX_STEP % n == (SlotOf(random) + n - 1) % n
  {
    StepsTo(random);
    hide SlotOf;
    var a, slot := (random + WORD_SIZE - INDEX_STEP) % WORD_SIZE / INDEX_STEP, SlotOf(random);
    OneLess(a, slot, n, if a + 1 == slot then 0
                        else if a + 1 == slot + 0x80_0000 then 0x80_0000 / n else 0x100_0000 / n);
  }

  lemma OneLess(a: nat, slot: nat, n: nat, t: nat)
    requires n > 0 && a == slot - 1 + t * n
    ensures a % n == (slot + n - 1) % n
  {
    if slot == 0 {
      assert t > 0 && a == n - 1 + (t - 1) * n;
      Periodic(n - 1, n, t - 1);
    } else {
      Periodic(slot - 1, n, t);
      Periodic(slot - 1, n, 1);
    }
  }

  lemma StepsTo(random: Word)
    ensures var a, slot := (random + WORD_SIZE - INDEX_STEP) % WORD_SIZE / INDEX_STEP, SlotOf(random);
            a == slot - 1 || a == slot + 0x80_0000 - 1 || a == slot + 0x100_0000 - 1
  {
  }

  /** The random index can get to slot `i`. */
  ghost predicate Reaches(m: Mmu, i: nat)
    requires 0 < |m.tlb| <= 64
  {
    exists w: Word :: SlotOf(RandomTick(m.(random := w)).random) == i
  }

  /** So the random index gets to every slot if and only if the size of the table is
      a power of two. */
  lemma RandomReachesAllIff(m: Mmu)
    requires 0 < |m.tlb| <= 64
    ensures (forall i :: 0 <= i < |m.tlb| ==> Reaches(m, i)) <==> IsPow2(|m.tlb|)
  {
    hide Reaches;
    if IsPow2(|m.tlb|) {
      var k: nat :| |m.tlb| == Pow2(k);
      forall i | 0 <= i < |m.tlb| ensures Reaches(m, i) {
        ReachesFromAbove(m, k, i);
      }
    } else {
      var i := MissesSlot(m);
    }
  }

  lemma {:induction false} BigPower(k: nat)
    requires k >= 7
    ensures Pow2(k) >= 128
  {
    if k > 7 {
      BigPower(k - 1);
    }
  }

  lemma SizeBound(k: nat)
    ensures Pow2(k) <= 64 ==> k <= 6
  {
    if k >= 7 {
      BigPower(k);
    }
  }

  lemma ReachesFromAbove(m: Mmu, k: nat, i: nat)
    requires 0 < |m.tlb| <= 64 && |m.tlb| == Pow2(k) && i < |m.tlb|
    ensures Reaches(m, i)
  {
    hide RandomTick, SlotOf, Pow2;
    var n := |m.tlb|;
    var above := if i + 1 == n then 0 else i + 1;
    var w: Word := IndexOf(above);
    RandomSteps(m.(random := w), k);
    assert SlotOf(w) == above;
    DivisionIs(above + n - 1, n, if i + 1 == n then 0 else 1, i);
  }

  lemma MissesSlot(m: Mmu) returns (i: nat)
    requires 0 < |m.tlb| <= 64 && !IsPow2(|m.tlb|)
    ensures i < |m.tlb| && !Reaches(m, i)
  {
    i := AndMisses(|m.tlb| - 1);
    hide SlotOf, RandomTick;
    forall w: Word ensures SlotOf(RandomTick(m.(random := w)).random) != i {
      RandomIs(m.(random := w));
    }
  }

  lemma SameTranslation(m: Mmu, n: Mmu, vaddr: Word, access: Access)
    requires m.tlb == n.tlb && m.user == n.user && m.floor == n.floor && m.entryHi == n.entryHi
    ensures Translate(m, vaddr, access) == Translate(n, vaddr, access)
  {
    hide Probe, IsValid, IsDirty;
  }

  // ---------------------------------------------------------------- the processor's own form

  class Mapper {
    const tlb: array<Entry>
    var user: bool
    const floor: Word
    var entryHi: Word
    var entryLo: Word
    var index: Word
    var random: Word
    var badVAddr: Word

    constructor (size: nat, floor: Word)
      requires 4 <= size <= 64
      ensures fresh(tlb) && tlb.Length == size && this.floor == floor
      ensures forall i :: 0 <= i < size ==> tlb[i] == Entry(0, 0)
    {
      tlb := new Entry[size](_ => Entry(0, 0));
      this.floor := floor;
      user, entryHi, entryLo, index, random, badVAddr := false, 0, 0, 0, 0, 0;
    }

    ghost function Value(): Mmu
      reads this, tlb
    {
      Mmu(tlb[..], user, floor, entryHi, entryLo, index, random, badVAddr)
    }

    /** Scans upwards and keeps the last match. */
    method ProbeTLB(asid: Word, vpn: Word) returns (r: Option<nat>)
      ensures r == Probe(tlb[..], asid, vpn)
    {
      hide Vpn, Asid, IsGlobal;
      r := None;
      for i := 0 to tlb.Length
        invariant r == Probe(tlb[..i], asid, vpn)
      {
        assert tlb[..i + 1][..i] == tlb[..i] && tlb[..i + 1][i] == tlb[i];
        if Vpn(tlb[i].hi) == Vpn(vpn) && (IsGlobal(tlb[i].lo) || Asid(tlb[i].hi) == Asid(asid)) {
          r := Some(i);
        }
      }
      assert tlb[..tlb.Length] == tlb[..];
    }

    method MapVirtual(vaddr: Word, access: Access) returns (r: Mapping)
      modifies this
      ensures r == Translate(old(Value()), vaddr, access) && Value() == AfterAccess(old(Value()), vaddr, access)
      ensures Answers(old(Value()), vaddr, access, r, Value())
    {
      hide Vpn, Asid, Flag, Probe, Answers;
      AccessAnswers(Value(), vaddr, access);
      if vaddr % 4 != 0 || (user && vaddr < KUSEG_BASE) {
        badVAddr := vaddr;
        return Refused(if access.Write? then StoreAccess else LoadAccess);
      } else if vaddr < floor {
        return Mapped(vaddr);
      }
      var found := ProbeTLB(entryHi, vaddr);
      if found.Some? {
        var lo := tlb[found.value].lo;
        if IsValid(lo) {
          if !access.Write? || IsDirty(lo) {
            return Mapped(PhAddr(vaddr, lo));
          }
          SetTLBRegs(vaddr);
          return Refused(Modified);
        }
        SetTLBRegs(vaddr);
        return Refused(if access.Write? then InvalidStore else InvalidLoad);
      }
      SetTLBRegs(vaddr);
      return Refused(if access.Write? then RefillStore else RefillLoad);
    }

    method SetTLBRegs(vaddr: Word)
      modifies `badVAddr, `entryHi
      ensures badVAddr == vaddr && entryHi == Join(vaddr, old(entryHi))
    {
      badVAddr := vaddr;
      entryHi := Join(vaddr, entryHi);
    }

    method DoTlbp()
      requires tlb.Length <= 64
      modifies `index
      ensures Value() == Tlbp(old(Value()))
    {
      index := SIGN_MASK;
      var found := ProbeTLB(entryHi, entryHi);
      if found.Some? { index := IndexOf(found.value); }
    }

    method DoTlbr()
      requires SlotOf(index) < tlb.Length
      modifies `entryHi, `entryLo
      ensures Value() == Tlbr(old(Value()))
    {
      hide SlotOf;
      entryHi, entryLo := tlb[SlotOf(index)].hi, tlb[SlotOf(index)].lo;
    }

    method DoTlbwi()
      requires SlotOf(index) < tlb.Length
      modifies tlb
      ensures Value() == Tlbwi(old(Value()))
    {
      hide SlotOf, Installed;
      tlb[SlotOf(index)] := Installed(entryHi, entryLo);
    }

    method DoTlbwr()
      requires SlotOf(random) < tlb.Length
      modifies tlb
      ensures Value() == Tlbwr(old(Value()))
    {
      hide SlotOf, Installed;
      tlb[SlotOf(random)] := Installed(entryHi, entryLo);
    }

    method ZapTLB()
      modifies tlb
      ensures Value() == Tlbclr(old(Value()))
      ensures forall i :: 0 <= i < tlb.Length ==> tlb[i] == if i == 0 then old(tlb[0]) else Entry(0, 0)
    {
      if tlb.Length > 0 {
        for i := 1 to tlb.Length
          invariant tlb[0] == old(tlb[0])
          invariant forall k :: 1 <= k < i ==> tlb[k] == Installed(0, 0)
        {
          tlb[i] := Installed(0, 0);
        }
      }
      assert tlb[..] == Tlbclr(old(Value())).tlb;
    }

    method RandomRegTick()
      requires 0 < tlb.Length <= 64
      modifies `random
      ensures Value() == RandomTick(old(Value())) && SlotOf(random) < tlb.Length
    {
      random := And((random + WORD_SIZE - INDEX_STEP) % WORD_SIZE, IndexOf(tlb.Length - 1));
      assert SlotOf(RandomTick(old(Value())).random) < tlb.Length;
    }
  }
}
