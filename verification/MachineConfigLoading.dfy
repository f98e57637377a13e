/** What a configuration file says: which trees load, and what they set. */
module MachineConfigLoading {
  import opened Words
  import opened Arch
  import opened Json
  import opened MachineConfigs
  import JsonLayout

  // ---------------------------------------------------------------- texts of numbers

  function Sign(negative: Option<bool>): string {
    match negative case None => "" case Some(true) => "-" case Some(false) => "+"
  }

  lemma {:induction false} TakeHexStops(s: string, rest: string, acc: nat)
    requires forall i :: 0 <= i < |s| ==> IsHex(s[i])
    requires rest == "" || !IsHex(rest[0])
    ensures TakeHex(s + rest, acc) == TakeHex(s, acc)
  {
    if s == "" {
      assert s + rest == rest;
    } else {
      assert (s + rest)[1..] == s[1..] + rest && (s + rest)[0] == s[0];
      TakeHexStops(s[1..], rest, 16 * acc + HexValue(s[0]));
    }
  }

  /** The library reads a sign, one `0x`, and digits up to the first other character; a
      minus wraps round 64 bits, and what does not fit there is refused. */
  lemma StoulReads(negative: Option<bool>, prefix: string, digits: string, rest: string)
    requires prefix in {"", "0x", "0X"} && digits != "" && forall i :: 0 <= i < |digits| ==> IsHex(digits[i])
    requires rest == "" || !IsHex(rest[0])
    requires prefix == "" ==> digits != "0" || rest == "" || rest[0] !in {'x', 'X'}
    ensures var v := TakeHex(digits, 0);
            Stoul(Sign(negative) + (prefix + (digits + rest))) ==
            if v >= 0x1_0000_0000_0000_0000 then None
            else if negative == Some(true) && v > 0 then Some(0x1_0000_0000_0000_0000 - v)
            else Some(v)
  {
    hide Stoul, Bare, TakeHex;
    var sign, d, t := Sign(negative), digits + rest, prefix + (digits + rest);
    BareIs(prefix, digits, rest);
    TakeHexStops(digits, rest, 0);
    assert t[0] == if prefix == "" then digits[0] else prefix[0];
    assert d[0] == digits[0];
    if negative.None? {
      assert sign + t == t;
      Unfolded(t, t, d);
    } else {
      assert (sign + t)[1..] == t && (sign + t)[0] == sign[0];
      Unfolded(sign + t, t, d);
    }
  }

  /** The text behind the sign, without its prefix. */
  function Bare(t: string): string {
    if |t| > 2 && t[0] == '0' && (t[1] == 'x' || t[1] == 'X') && IsHex(t[2]) then t[2..] else t
  }

  lemma BareIs(prefix: string, digits: string, rest: string)
    requires prefix in {"", "0x", "0X"} && digits != "" && forall i :: 0 <= i < |digits| ==> IsHex(digits[i])
    requires rest == "" || !IsHex(rest[0])
    requires prefix == "" ==> digits != "0" || rest == "" || rest[0] !in {'x', 'X'}
    ensures Bare(prefix + (digits + rest)) == digits + rest
  {
    var t := prefix + (digits + rest);
    if prefix == "" {
      assert t == digits + rest;
      assert |digits| > 1 ==> t[1] == digits[1];
      assert |digits| == 1 && |t| > 1 ==> t[1] == rest[0] && digits == [t[0]];
    } else {
      assert t[0] == prefix[0] && t[1] == prefix[1] && t[2] == digits[0];
      assert t[2..] == digits + rest;
    }
  }

  lemma Unfolded(s: string, t: string, d: string)
    requires s != "" && !IsSpace(s[0]) && t == (if IsSign(s[0]) then s[1..] else s) && d == Bare(t)
    requires d != "" && IsHex(d[0])
    ensures var v := TakeHex(d, 0);
            Stoul(s) == if v >= 0x1_0000_0000_0000_0000 then None
                        else if s[0] == '-' && v > 0 then Some(0x1_0000_0000_0000_0000 - v)
                        else Some(v)
  {
    hide TakeHex;
    assert SkipSpace(s) == s;
  }

  /** Text that does not start with a digit, a sign or a blank is refused. */
  lemma StoulRefuses(s: string)
    requires s == "" || (!IsHex(s[0]) && !IsSign(s[0]) && !IsSpace(s[0]))
    ensures Stoul(s) == None
  {
  }

  // ---------------------------------------------------------------- shapes

  ghost predicate NumberOk(ms: seq<Member>, key: string) {
    match Find(ms, key) case None => true case Some(j) => j.Number?
  }

  ghost predicate TextOk(ms: seq<Member>, key: string) {
    match Find(ms, key) case None => true case Some(j) => j.String?
  }

  ghost predicate BootOk(ms: seq<Member>) {
    var boot := Find(ms, "boot");
    boot.Some? ==>
      && boot.value.Object?
      && Find(boot.value.members, "load-core-file").Some? && Find(boot.value.members, "core-file").Some?
      && Find(boot.value.members, "load-core-file").value.Bool? && Find(boot.value.members, "core-file").value.String?
  }

  ghost predicate StabOk(ms: seq<Member>) {
    var table := Find(ms, "symbol-table");
    table.Some? ==>
      && table.value.Object?
      && Find(table.value.members, "file").Some? && Find(table.value.members, "asid").Some?
      && Find(table.value.members, "file").value.String? && Find(table.value.members, "asid").value.Number?
  }

  ghost predicate SlotOk(ms: seq<Member>, slot: nat)
    requires slot < SLOTS
  {
    var device := Find(ms, Key(slot));
    device.Some? ==>
      && device.value.Object?
      && Find(device.value.members, "enabled").Some? && Find(device.value.members, "file").Some?
      && Find(device.value.members, "enabled").value.Bool? && Find(device.value.members, "file").value.String?
      && (slot / 8 == 2 ==> TextOk(device.value.members, "address"))
  }

  // ---------------------------------------------------------------- settings

  /** A number that is missing is what it was; one that is there is cut to 32 bits and
      moved within its bounds. */
  ghost function NumberFor(ms: seq<Member>, key: string, was: Word, lo: Word, hi: Word): Word {
    match Find(ms, key)
    case Some(Number(n)) =>
      var v := n % 0x1_0000_0000;
      if v < lo then lo else if v > hi then hi else v
    case _ => was
  }

  ghost function TextFor(ms: seq<Member>, key: string, was: string): string {
    match Find(ms, key) case Some(String(s)) => s case _ => was
  }

  ghost function BoolFor(ms: seq<Member>, key: string, was: bool): bool {
    match Find(ms, key) case Some(Bool(b)) => b case _ => was
  }

  ghost function MembersFor(ms: seq<Member>, key: string): seq<Member> {
    match Find(ms, key) case Some(Object(os)) => os case _ => []
  }

  /** The text behind the first two characters, as a hexadecimal number. */
  ghost predicate FloorOk(ms: seq<Member>) {
    match Find(ms, "tlb-floor-address")
    case None => true
    case Some(String(s)) => Stoul(if |s| < 2 then "" else s[2..]).Some?
    case _ => false
  }

  /** 0 stands for the end of RAM as it was sized before. */
  ghost function FloorOf(ms: seq<Member>, was: Word, ramSize: Word): nat
    requires FloorOk(ms)
  {
    match Find(ms, "tlb-floor-address")
    case Some(String(s)) =>
      var v := Stoul(if |s| < 2 then "" else s[2..]).value % 0x1_0000_0000;
      if v == 0 then 0x2000_0000 + 0x1000 * ramSize else v
    case _ => was
  }

  lemma SettingIs(ms: seq<Member>, key: string, was: Word, lo: Word, hi: Word)
    requires lo <= was <= hi
    ensures Setting(ms, key, was, lo, hi) ==
            if NumberOk(ms, key) then Success(NumberFor(ms, key, was, lo, hi)) else Failure(Invalid)
  {
  }

  lemma FloorIs(ms: seq<Member>, was: Word, ramSize: Word)
    requires was != 0 && ramSize <= MAX_RAM
    ensures FloorSetting(ms, was, ramSize).Success? <==> FloorOk(ms)
    ensures FloorOk(ms) ==> FloorSetting(ms, was, ramSize).value == FloorOf(ms, was, ramSize)
  {
    hide Stoul;
    if Find(ms, "tlb-floor-address").Some? && Find(ms, "tlb-floor-address").value.String? {
      var s := Find(ms, "tlb-floor-address").value.text;
      assert s[Min(2, |s|)..] == if |s| < 2 then "" else s[2..];
    }
  }

  /** The numbers of a file, the others left alone. */
  lemma NumbersAre(ms: seq<Member>, c: Config)
    requires Bounded(c)
    ensures var r := LoadNumbers(ms, c);
            && (r.Success? <==>
                  NumberOk(ms, "num-processors") && NumberOk(ms, "clock-rate") && NumberOk(ms, "tlb-size") &&
                  NumberOk(ms, "num-ram-frames") && FloorOk(ms))
            && (r.Success? ==>
                  r.value == c.(cpus := NumberFor(ms, "num-processors", c.cpus, 1, 16),
                                clockRate := NumberFor(ms, "clock-rate", c.clockRate, 1, 99),
                                tlbSize := NumberFor(ms, "tlb-size", c.tlbSize, 4, 64),
                                tlbFloor := FloorOf(ms, c.tlbFloor, c.ramSize),
                                ramSize := NumberFor(ms, "num-ram-frames", c.ramSize, MIN_RAM, MAX_RAM)))
  {
    hide Setting, FloorSetting, NumberOk, NumberFor, FloorOk, FloorOf;
    SettingIs(ms, "num-processors", c.cpus, MIN_CPUS, MAX_CPUS);
    SettingIs(ms, "clock-rate", c.clockRate, MIN_CLOCK_RATE, MAX_CLOCK_RATE);
    SettingIs(ms, "tlb-size", c.tlbSize, MIN_TLB, MAX_TLB);
    SettingIs(ms, "num-ram-frames", c.ramSize, MIN_RAM, MAX_RAM);
    FloorIs(ms, c.tlbFloor, c.ramSize);
  }

  /** The texts of a file. */
  lemma TextsAre(ms: seq<Member>, c: Config)
    requires Bounded(c)
    ensures var r := LoadRoms(ms, c);
            && (r.Success? <==> TextOk(ms, "bootstrap-rom") && TextOk(ms, "execution-rom"))
            && (r.Success? ==> r.value == c.(boot := TextFor(ms, "bootstrap-rom", c.boot),
                                             bios := TextFor(ms, "execution-rom", c.bios)))
  {
    hide Find;
  }

  lemma BootIs(ms: seq<Member>, c: Config)
    requires Bounded(c)
    ensures var r, os := LoadBoot(ms, c), MembersFor(ms, "boot");
            && (r.Success? <==> BootOk(ms))
            && (r.Success? ==> r.value == c.(loadCore := BoolFor(os, "load-core-file", c.loadCore),
                                             core := TextFor(os, "core-file", c.core)))
  {
    EmptyHasNothing("load-core-file");
    EmptyHasNothing("core-file");
    hide Find;
  }

  lemma EmptyHasNothing(key: string)
    ensures Find([], key) == None
  {
  }

  lemma StabIs(ms: seq<Member>, c: Config)
    requires Bounded(c)
    ensures var r, os := LoadStab(ms, c), MembersFor(ms, "symbol-table");
            && (r.Success? <==> StabOk(ms))
            && (r.Success? ==> r.value == c.(stab := TextFor(os, "file", c.stab),
                                             asid := NumberFor(os, "asid", c.asid, 0, 64)))
  {
    EmptyHasNothing("file");
    EmptyHasNothing("asid");
    hide Find;
  }

  // ---------------------------------------------------------------- devices

  /** The keys of the slots: the kind of device on the line, and its number there. */
  lemma KeyIs(il: nat, dev: nat)
    requires il < 5 && dev < 8
    ensures Key(8 * il + dev) == ["disk", "flash", "eth", "printer", "terminal"][il] + ["01234567"[dev]]
  {
    assert (8 * il + dev) / 8 == il && (8 * il + dev) % 8 == dev;
  }

  /** Only the network interfaces' slots have an address to save. */
  lemma AddressesAre(c: Config, slot: nat)
    requires slot < SLOTS && |c.macs| == N_DEV_PER_IL
    ensures MacAt(c, slot) == if 16 <= slot < 24 then c.macs[slot - 16] else None
  {
  }

  /** A field of an address is one or two digits, or a sign and a digit, where a minus
      wraps round 32 bits; `0x` is none. */
  lemma FieldIs(a: char, b: char, rest: string)
    requires !IsSpace(a)
    ensures HexField([a, b] + rest) ==
            if IsSign(a) && IsHex(b) then
              Some((if a == '-' && HexValue(b) > 0 then 0x1_0000_0000 - HexValue(b) else HexValue(b), rest))
            else if IsHex(a) && IsHex(b) then Some((16 * HexValue(a) + HexValue(b), rest))
            else if IsHex(a) && !(a == '0' && b in {'x', 'X'}) then Some((HexValue(a), [b] + rest))
            else None
  {
    hide HexValue;
    var s := [a, b] + rest;
    assert SkipSpace(s) == s && s[2..] == rest && s[1..] == [b] + rest;
  }

  /** What a file says of the slot's MAC id: of a network interface only, and only an
      address that can be read. */
  ghost function MacFor(os: seq<Member>, slot: nat, was: Option<Mac>): Option<Mac> {
    match Find(os, "address")
    case Some(String(s)) => if slot / 8 == 2 && ParseMACId(s).Some? then ParseMACId(s) else was
    case _ => was
  }

  ghost function SlotFor(ms: seq<Member>, c: Config, slot: nat): Config
    requires Bounded(c) && slot < SLOTS
  {
    var os := MembersFor(ms, Key(slot));
    c.(enabled := c.enabled[slot := BoolFor(os, "enabled", c.enabled[slot])],
       files := c.files[slot := TextFor(os, "file", c.files[slot])],
       macs := c.macs[slot % 8 := MacFor(os, slot, c.macs[slot % 8])])
  }

  lemma SlotIs(ms: seq<Member>, c: Config, slot: nat)
    requires Bounded(c) && slot < SLOTS
    ensures var r := LoadSlot(ms, c, slot);
            && (r.Success? <==> SlotOk(ms, slot))
            && (r.Success? ==> r.value == SlotFor(ms, c, slot))
  {
    EmptyHasNothing("enabled");
    EmptyHasNothing("file");
    EmptyHasNothing("address");
    hide Find, Key, ParseMACId;
    assert c.macs[slot % 8 := c.macs[slot % 8]] == c.macs;
    assert c.files[slot := c.files[slot]] == c.files && c.enabled[slot := c.enabled[slot]] == c.enabled;
  }

  /** From slot `from` on, each slot is what the file says of it, and those before are
      what they were. */
  ghost predicate SlotsSay(ms: seq<Member>, was: Config, now: Config, from: nat)
    requires Bounded(was) && Bounded(now)
  {
    && now == was.(enabled := now.enabled, files := now.files, macs := now.macs)
    && (forall slot :: 0 <= slot < SLOTS ==> SlotSays(ms, was, now, slot, from))
    && forall i :: 0 <= i < 8 ==>
         now.macs[i] == if from <= 16 + i then MacFor(MembersFor(ms, Key(16 + i)), 16 + i, was.macs[i]) else was.macs[i]
  }

  ghost predicate SlotSays(ms: seq<Member>, was: Config, now: Config, slot: nat, from: nat)
    requires Bounded(was) && Bounded(now) && slot < SLOTS
  {
    var os, said := MembersFor(ms, Key(slot)), from <= slot;
    && now.enabled[slot] == (if said then BoolFor(os, "enabled", was.enabled[slot]) else was.enabled[slot])
    && now.files[slot] == if said then TextFor(os, "file", was.files[slot]) else was.files[slot]
  }

  lemma {:induction false} SlotsAre(ms: seq<Member>, c: Config, from: nat)
    requires Bounded(c) && from <= SLOTS
    ensures var r := LoadSlots(ms, c, from);
            && (r.Success? <==> forall slot :: from <= slot < SLOTS ==> SlotOk(ms, slot))
            && (r.Success? ==> SlotsSay(ms, c, r.value, from))
    decreases SLOTS - from
  {
    hide LoadSlot, SlotOk, Key, MembersFor, TextFor, BoolFor, MacFor;
    if from < SLOTS {
      SlotIs(ms, c, from);
      var r := LoadSlot(ms, c, from);
      if r.Success? {
        SlotsAre(ms, r.value, from + 1);
        if LoadSlots(ms, c, from).Success? { SlotsJoin(ms, c, LoadSlots(ms, c, from).value, from); }
      }
    }
  }

  lemma SlotsJoin(ms: seq<Member>, was: Config, now: Config, from: nat)
    requires Bounded(was) && Bounded(now) && from < SLOTS && SlotsSay(ms, SlotFor(ms, was, from), now, from + 1)
    ensures SlotsSay(ms, was, now, from)
  {
    hide Key, MembersFor, TextFor, BoolFor, MacFor;
    var mid := SlotFor(ms, was, from);
    forall slot | 0 <= slot < SLOTS ensures SlotSays(ms, was, now, slot, from) {
      assert SlotSays(ms, mid, now, slot, from + 1);
    }
    SlotLeavesMacs(ms, was, from);
  }

  /** Only the third line has MAC ids. */
  lemma SlotLeavesMacs(ms: seq<Member>, c: Config, slot: nat)
    requires Bounded(c) && slot < SLOTS
    ensures slot / 8 != 2 ==> SlotFor(ms, c, slot).macs == c.macs
    ensures slot / 8 == 2 <==> 16 <= slot < 24
    ensures 16 <= slot < 24 ==> slot % 8 == slot - 16
  {
  }

  // ---------------------------------------------------------------- whole files

  ghost predicate DevicesOk(ms: seq<Member>) {
    match Find(ms, "devices")
    case None => true
    case Some(Object(os)) => forall slot :: 0 <= slot < SLOTS ==> SlotOk(os, slot)
    case _ => false
  }

  lemma DevicesAre(ms: seq<Member>, c: Config)
    requires Bounded(c)
    ensures var r := LoadDevices(ms, c);
            && (r.Success? <==> DevicesOk(ms))
            && (r.Success? ==> SlotsSay(MembersFor(ms, "devices"), c, r.value, 0))
  {
    hide SlotOk, SlotsSay;
    SlotsAre(MembersFor(ms, "devices"), c, 0);
    NothingSaid(c);
  }

  lemma NothingSaid(c: Config)
    requires Bounded(c)
    ensures SlotsSay([], c, c, 0)
  {
    hide Key;
  }

  /** Everything that is there has its shape; anything may be missing but the inner
      members of what is there. */
  ghost predicate TreeOk(ms: seq<Member>) {
    && NumberOk(ms, "num-processors") && NumberOk(ms, "clock-rate") && NumberOk(ms, "tlb-size")
    && NumberOk(ms, "num-ram-frames") && FloorOk(ms) && BootOk(ms)
    && TextOk(ms, "bootstrap-rom") && TextOk(ms, "execution-rom") && StabOk(ms) && DevicesOk(ms)
  }

  /** What the tree says of everything but the slots; what it does not say is the
      factory setting. */
  ghost function BaseFor(ms: seq<Member>): Config
    requires FloorOk(ms)
  {
    var boot, table := MembersFor(ms, "boot"), MembersFor(ms, "symbol-table");
    Factory().(cpus := NumberFor(ms, "num-processors", 1, 1, 16),
               clockRate := NumberFor(ms, "clock-rate", 1, 1, 99),
               tlbSize := NumberFor(ms, "tlb-size", 16, 4, 64),
               tlbFloor := FloorOf(ms, 0xFFFF_FFFF, 64),
               ramSize := NumberFor(ms, "num-ram-frames", 64, 8, 512),
               loadCore := BoolFor(boot, "load-core-file", true),
               core := TextFor(boot, "core-file", "kernel.core.uriscv"),
               boot := TextFor(ms, "bootstrap-rom", DATA_DIR + "/coreboot.rom.uriscv"),
               bios := TextFor(ms, "execution-rom", DATA_DIR + "/exec.rom.uriscv"),
               stab := TextFor(table, "file", "kernel.stab.uriscv"),
               asid := NumberFor(table, "asid", 64, 0, 64))
  }

  /** A tree loads exactly when it has that shape, and then the configuration is what it
      says, setting by setting and slot by slot. */
  lemma LoadTreeIs(ms: seq<Member>)
    ensures var r := LoadTree(Object(ms));
            && (r.Success? <==> TreeOk(ms))
            && (r.Success? ==> Bounded(BaseFor(ms)) && SlotsSay(MembersFor(ms, "devices"), BaseFor(ms), r.value, 0))
  {
    hide LoadNumbers, LoadBoot, LoadRoms, LoadStab, LoadDevices, NumberOk, TextOk, FloorOk, BootOk, StabOk, DevicesOk,
         NumberFor, TextFor, BoolFor, FloorOf, MembersFor, SlotsSay;
    NumbersAre(ms, Factory());
    var c1 := LoadNumbers(ms, Factory());
    if c1.Success? {
      BootIs(ms, c1.value);
      var c2 := LoadBoot(ms, c1.value);
      if c2.Success? {
        TextsAre(ms, c2.value);
        var c3 := LoadRoms(ms, c2.value);
        if c3.Success? {
          StabIs(ms, c3.value);
          var c4 := LoadStab(ms, c3.value);
          if c4.Success? {
            assert c4.value == BaseFor(ms);
            DevicesAre(ms, c4.value);
          }
        }
      }
    }
  }

  /** An empty object is the factory settings. */
  lemma EmptyIsFactory()
    ensures LoadTree(Object([])) == Success(Factory())
  {
    LoadTreeIs([]);
    var r := LoadTree(Object([]));
    assert TreeOk([]) && BaseFor([]) == Factory() && MembersFor([], "devices") == [];
    assert r.value.enabled == Factory().enabled && r.value.files == Factory().files by {
      assert forall slot :: 0 <= slot < SLOTS ==> SlotSays([], Factory(), r.value, slot, 0);
    }
    assert r.value.macs == Factory().macs;
  }

  /** A saved configuration is laid out with four blanks to a level. */
  lemma SavedLines(c: Config)
    requires Bounded(c)
    ensures JsonLayout.Text(JsonLayout.Lines(Object(RootMembers(c)), 0), 4) == "\n" + SavedText(c)
  {
    hide RootMembers, Print;
    JsonLayout.PrintIsLines(Object(RootMembers(c)), 4, 0);
    assert JsonLayout.Blanks(0) == "";
  }
}
