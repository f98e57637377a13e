/** Which configurations survive saving and loading, and what the others become. */
module MachineConfigRoundTrip {
  import opened Words
  import opened Arch
  import opened Json
  import opened JsonRoundTrip
  import opened MachineConfigs

  // ---------------------------------------------------------------- hexadecimal

  function Pow16(n: nat): nat {
    if n == 0 then 1 else 16 * Pow16(n - 1)
  }

  lemma {:induction false} TakeHexAppends(s: string, c: char, acc: nat)
    requires IsHex(c) && forall i :: 0 <= i < |s| ==> IsHex(s[i])
    ensures TakeHex(s + [c], acc) == 16 * TakeHex(s, acc) + HexValue(c)
  {
    if s == "" {
      assert s + [c] == [c] && [c][1..] == "";
    } else {
      assert (s + [c])[1..] == s[1..] + [c];
      TakeHexAppends(s[1..], c, 16 * acc + HexValue(s[0]));
    }
  }

  lemma {:induction false} HexReads(v: nat, digits: nat)
    requires v < Pow16(digits)
    ensures |Hex(v, digits)| == digits && forall i :: 0 <= i < digits ==> IsHex(Hex(v, digits)[i])
    ensures TakeHex(Hex(v, digits), 0) == v
  {
    if digits > 0 {
      HexReads(v / 16, digits - 1);
      assert HexValue(HexDigit(v % 16)) == v % 16;
      TakeHexAppends(Hex(v / 16, digits - 1), HexDigit(v % 16), 0);
    }
  }

  lemma WordsHaveEightDigits()
    ensures Pow16(8) == WORD_SIZE
  {
    assert Pow16(4) == 0x1_0000;
    assert Pow16(6) == 0x100_0000;
  }

  lemma FloorReads(w: Word)
    ensures NoQuote(IntToHexString(w))
    ensures Stoul(IntToHexString(w)[Min(2, |IntToHexString(w)|)..]) == Some(w)
  {
    hide Hex, TakeHex, Pow16;
    WordsHaveEightDigits();
    HexReads(w, 8);
    var s := IntToHexString(w);
    assert s[2..] == Hex(w, 8);
    assert SkipSpace(Hex(w, 8)) == Hex(w, 8);
  }

  lemma FieldReads(v: nat, rest: string)
    requires v < 256
    ensures HexField(Hex(v, 2) + rest) == Some((v, rest)) && NoQuote(Hex(v, 2))
  {
    var a, b := HexDigit(v / 16), HexDigit(v % 16);
    assert Hex(v, 2) == [a, b] by {
      assert Hex(v / 16 / 16, 0) == "" && Hex(v / 16, 1) == [a];
    }
    assert HexValue(a) == v / 16 && HexValue(b) == v % 16 && !IsSpace(a) && !IsSign(a);
    hide Hex, HexDigit, HexValue, IsSpace, IsSign;
    var u := [a, b] + rest;
    assert u[0] == a && u[1] == b && u[2..] == rest && SkipSpace(u) == u;
  }

  /** The groups of a MAC id, from the `i`th on. */
  function GroupsText(m: Mac, i: nat): string
    requires i < 6
    decreases 6 - i
  {
    if i == 5 then Hex(m[5], 2) else Hex(m[i], 2) + (":" + GroupsText(m, i + 1))
  }

  lemma {:induction false} GroupsRead(m: Mac, i: nat)
    requires i < 6
    ensures ScanGroups(GroupsText(m, i), 6 - i) == Some(m[i..]) && NoQuote(GroupsText(m, i))
    decreases 6 - i
  {
    hide Hex, HexField;
    if i == 5 {
      FieldReads(m[5], "");
      assert Hex(m[5], 2) + "" == Hex(m[5], 2) && m[5..] == [m[5]];
    } else {
      var rest := ":" + GroupsText(m, i + 1);
      FieldReads(m[i], rest);
      assert rest[0] == ':' && rest[1..] == GroupsText(m, i + 1);
      GroupsRead(m, i + 1);
      assert m[i..] == [m[i]] + m[i + 1..];
    }
  }

  /** A MAC id reads back unless its first byte is odd, when it is refused. */
  lemma MacReads(m: Mac)
    ensures ParseMACId(MACIdToString(m)) == (if m[0] % 2 == 0 then Some(m) else None)
    ensures NoQuote(MACIdToString(m))
  {
    hide Hex, ScanGroups;
    assert MACIdToString(m) == GroupsText(m, 0) by {
      assert GroupsText(m, 5) == Hex(m[5], 2);
      assert GroupsText(m, 3) == Hex(m[3], 2) + (":" + (Hex(m[4], 2) + (":" + Hex(m[5], 2))));
      assert GroupsText(m, 1) == Hex(m[1], 2) + (":" + (Hex(m[2], 2) + (":" + GroupsText(m, 3))));
    }
    GroupsRead(m, 0);
    assert m[0..] == m;
    var g: seq<Word> := m;
    assert ToBytes(g) == m;
  }

  // ---------------------------------------------------------------- members

  lemma {:induction false} FindSet(ms: seq<Member>, key: string, value: Node)
    ensures forall k :: Find(Set(ms, key, value), k) == if k == key then Some(value) else Find(ms, k)
  {
    hide Less;
    if ms == [] {
      assert [Member(key, value)][1..] == [];
    } else {
      FindSet(ms[1..], key, value);
      assert ([Member(key, value)] + ms[1..])[1..] == ms[1..];
      assert ([Member(key, value)] + ms)[1..] == ms;
      assert ([ms[0]] + Set(ms[1..], key, value))[1..] == Set(ms[1..], key, value);
    }
  }

  lemma KeyIs(slot: nat)
    requires slot < SLOTS
    ensures var k := Key(slot);
            k[|k| - 1] == Digit(slot % N_DEV_PER_IL) && k[..|k| - 1] == DeviceKeyPrefix(slot / N_DEV_PER_IL)
    ensures NoQuote(Key(slot))
  {
  }

  lemma KeyInjective(a: nat, b: nat)
    requires a < SLOTS && b < SLOTS && Key(a) == Key(b)
    ensures a == b
  {
    hide Key, Digits;
    KeyIs(a);
    KeyIs(b);
    assert a % N_DEV_PER_IL == b % N_DEV_PER_IL;
    var p, q := DeviceKeyPrefix(a / N_DEV_PER_IL), DeviceKeyPrefix(b / N_DEV_PER_IL);
    assert p[0] == q[0];
  }

  lemma DeviceFinds(enabled: bool, file: string, mac: Option<Mac>)
    ensures var ms := DeviceMembers(enabled, file, mac);
            && Find(ms, "enabled") == Some(Bool(enabled)) && Find(ms, "file") == Some(String(file))
            && Find(ms, "address") == if mac.Some? then Some(String(MACIdToString(mac.value))) else None
  {
    hide Set, MACIdToString;
    FindSet([], "enabled", Bool(enabled));
    FindSet(Set([], "enabled", Bool(enabled)), "file", String(file));
    if mac.Some? {
      FindSet(Set(Set([], "enabled", Bool(enabled)), "file", String(file)), "address",
              String(MACIdToString(mac.value)));
    }
  }

  lemma {:induction false} DevicesFind(c: Config, n: nat, slot: nat)
    requires Bounded(c) && n <= SLOTS && slot < SLOTS
    ensures Find(DevicesMembers(c, n), Key(slot)) ==
            if slot < n && c.files[slot] != "" then
              Some(Object(DeviceMembers(c.enabled[slot], c.files[slot], MacAt(c, slot))))
            else None
  {
    hide Set, DeviceMembers, Key;
    if n > 0 {
      DevicesFind(c, n - 1, slot);
      if c.files[n - 1] != "" {
        FindSet(DevicesMembers(c, n - 1), Key(n - 1),
          Object(DeviceMembers(c.enabled[n - 1], c.files[n - 1], MacAt(c, n - 1))));
        if slot != n - 1 && Key(slot) == Key(n - 1) { KeyInjective(slot, n - 1); }
      }
    }
  }

  lemma BootFinds(c: Config)
    ensures Find(BootMembers(c), "load-core-file") == Some(Bool(c.loadCore))
    ensures Find(BootMembers(c), "core-file") == Some(String(c.core))
  {
    hide Set;
    FindSet([], "load-core-file", Bool(c.loadCore));
    FindSet(Set([], "load-core-file", Bool(c.loadCore)), "core-file", String(c.core));
  }

  lemma StabFinds(c: Config)
    ensures Find(StabMembers(c), "file") == Some(String(c.stab))
    ensures Find(StabMembers(c), "asid") == Some(Number(c.asid))
  {
    hide Set;
    FindSet([], "file", String(c.stab));
    FindSet(Set([], "file", String(c.stab)), "asid", Number(c.asid));
  }

  lemma NumbersFind(c: Config)
    ensures var ms := NumberMembers(c);
            && Find(ms, "num-processors") == Some(Number(c.cpus)) && Find(ms, "clock-rate") == Some(Number(c.clockRate))
            && Find(ms, "tlb-size") == Some(Number(c.tlbSize))
            && Find(ms, "tlb-floor-address") == Some(String(IntToHexString(c.tlbFloor)))
            && Find(ms, "num-ram-frames") == Some(Number(c.ramSize))
  {
    hide Set, IntToHexString;
    var m1 := Set([], "num-processors", Number(c.cpus));
    var m2 := Set(m1, "clock-rate", Number(c.clockRate));
    var m3 := Set(m2, "tlb-size", Number(c.tlbSize));
    var m4 := Set(m3, "tlb-floor-address", String(IntToHexString(c.tlbFloor)));
    FindSet([], "num-processors", Number(c.cpus));
    FindSet(m1, "clock-rate", Number(c.clockRate));
    FindSet(m2, "tlb-size", Number(c.tlbSize));
    FindSet(m3, "tlb-floor-address", String(IntToHexString(c.tlbFloor)));
    FindSet(m4, "num-ram-frames", Number(c.ramSize));
    assert "num-processors"[4] != "num-ram-frames"[4];
  }

  /** The members set behind the numbers, and what they leave alone. */
  lemma RootFindsRest(c: Config)
    requires Bounded(c)
    ensures var ms := RootMembers(c);
            && Find(ms, "boot") == Some(Object(BootMembers(c)))
            && Find(ms, "bootstrap-rom") == Some(String(c.boot)) && Find(ms, "execution-rom") == Some(String(c.bios))
            && Find(ms, "symbol-table") == Some(Object(StabMembers(c)))
            && Find(ms, "devices") == Some(Object(DevicesMembers(c, SLOTS)))
    ensures forall k :: k !in {"boot", "bootstrap-rom", "execution-rom", "symbol-table", "devices"} ==>
              Find(RootMembers(c), k) == Find(NumberMembers(c), k)
  {
    hide Set, NumberMembers, BootMembers, StabMembers, DevicesMembers;
    var m0 := NumberMembers(c);
    var m1 := Set(m0, "boot", Object(BootMembers(c)));
    var m2 := Set(m1, "bootstrap-rom", String(c.boot));
    var m3 := Set(m2, "execution-rom", String(c.bios));
    var m4 := Set(m3, "symbol-table", Object(StabMembers(c)));
    FindSet(m0, "boot", Object(BootMembers(c)));
    FindSet(m1, "bootstrap-rom", String(c.boot));
    FindSet(m2, "execution-rom", String(c.bios));
    FindSet(m3, "symbol-table", Object(StabMembers(c)));
    FindSet(m4, "devices", Object(DevicesMembers(c, SLOTS)));
    assert "bootstrap-rom"[0] != "execution-rom"[0];
  }

  lemma RootFindsNumbers(c: Config)
    requires Bounded(c)
    ensures var ms := RootMembers(c);
            && Find(ms, "num-processors") == Some(Number(c.cpus)) && Find(ms, "clock-rate") == Some(Number(c.clockRate))
            && Find(ms, "tlb-size") == Some(Number(c.tlbSize))
            && Find(ms, "tlb-floor-address") == Some(String(IntToHexString(c.tlbFloor)))
            && Find(ms, "num-ram-frames") == Some(Number(c.ramSize))
  {
    hide Find, RootMembers, NumberMembers, BootMembers, StabMembers, DevicesMembers, IntToHexString;
    RootFindsRest(c);
    NumbersFind(c);
  }

  // ---------------------------------------------------------------- what loading yields

  /** A MAC id is kept when its slot has a file and its first byte is even. */
  ghost predicate MacKept(c: Config, d: nat)
    requires Bounded(c) && d < N_DEV_PER_IL
  {
    c.macs[d].Some? && c.files[ETHERNET * N_DEV_PER_IL + d] != "" && c.macs[d].value[0] % 2 == 0
  }

  /** The configuration with the first `n` slots loaded and the others still as
      the factory sets them. */
  ghost function Loaded(c: Config, n: nat): (r: Config)
    requires Bounded(c)
    ensures Bounded(r)
  {
    c.(files := seq(SLOTS, i requires 0 <= i < SLOTS => if i < n then c.files[i] else ""),
       enabled := seq(SLOTS, i requires 0 <= i < SLOTS => i < n && c.files[i] != "" && c.enabled[i]),
       macs := seq(N_DEV_PER_IL, d requires 0 <= d < N_DEV_PER_IL =>
                   if ETHERNET * N_DEV_PER_IL + d < n && MacKept(c, d) then c.macs[d] else None))
  }

  lemma MacLoads(c: Config, slot: nat, d: Config)
    requires Bounded(c) && Bounded(d) && slot < SLOTS && c.files[slot] != ""
    requires d == Loaded(c, slot).(files := Loaded(c, slot + 1).files, enabled := Loaded(c, slot + 1).enabled)
    ensures LoadMac(DeviceMembers(c.enabled[slot], c.files[slot], MacAt(c, slot)), d, slot) ==
            Success(Loaded(c, slot + 1))
  {
    hide DeviceMembers, MACIdToString, ParseMACId, Find;
    var mac := MacAt(c, slot);
    DeviceFinds(c.enabled[slot], c.files[slot], mac);
    if mac.Some? { MacReads(mac.value); }
    var k := slot % N_DEV_PER_IL;
    if slot / N_DEV_PER_IL == ETHERNET {
      assert slot == ETHERNET * N_DEV_PER_IL + k;
      if mac.Some? && mac.value[0] % 2 == 0 {
        assert Loaded(c, slot + 1).macs == d.macs[k := mac];
      } else {
        assert Loaded(c, slot + 1).macs == d.macs;
      }
    } else {
      assert Loaded(c, slot + 1).macs == d.macs;
    }
  }

  /** How one more slot changes the files and settings loaded so far. */
  lemma LoadedGrows(c: Config, slot: nat)
    requires Bounded(c) && slot < SLOTS
    ensures var was, now := Loaded(c, slot), Loaded(c, slot + 1);
            && now.files == was.files[slot := c.files[slot]]
            && now.enabled == was.enabled[slot := c.files[slot] != "" && c.enabled[slot]]
            && now == was.(files := now.files, enabled := now.enabled, macs := now.macs)
  {
    hide MacKept;
  }

  lemma EmptySlotAddsNothing(c: Config, slot: nat)
    requires Bounded(c) && slot < SLOTS && c.files[slot] == ""
    ensures Loaded(c, slot + 1) == Loaded(c, slot)
  {
    var was, now := Loaded(c, slot), Loaded(c, slot + 1);
    assert now.files == was.files && now.enabled == was.enabled && now.macs == was.macs;
  }

  lemma FiledSlotLoads(c: Config, slot: nat)
    requires Bounded(c) && slot < SLOTS && c.files[slot] != ""
    ensures LoadSlot(DevicesMembers(c, SLOTS), Loaded(c, slot), slot) == Success(Loaded(c, slot + 1))
  {
    hide DevicesMembers, DeviceMembers, Key, LoadMac, Find, Loaded, MacAt;
    var was, now := Loaded(c, slot), Loaded(c, slot + 1);
    DevicesFind(c, SLOTS, slot);
    DeviceFinds(c.enabled[slot], c.files[slot], MacAt(c, slot));
    LoadedGrows(c, slot);
    MacLoads(c, slot, was.(files := now.files, enabled := now.enabled));
  }

  lemma SlotLoads(c: Config, slot: nat)
    requires Bounded(c) && slot < SLOTS
    ensures LoadSlot(DevicesMembers(c, SLOTS), Loaded(c, slot), slot) == Success(Loaded(c, slot + 1))
  {
    hide DevicesMembers, DeviceMembers, Key, Find, Loaded;
    if c.files[slot] == "" {
      DevicesFind(c, SLOTS, slot);
      EmptySlotAddsNothing(c, slot);
    } else {
      FiledSlotLoads(c, slot);
    }
  }

  lemma {:induction false} SlotsLoad(c: Config, slot: nat)
    requires Bounded(c) && slot <= SLOTS
    ensures LoadSlots(DevicesMembers(c, SLOTS), Loaded(c, slot), slot) == Success(Loaded(c, SLOTS))
    decreases SLOTS - slot
  {
    hide DevicesMembers, LoadSlot, Loaded;
    if slot < SLOTS {
      SlotLoads(c, slot);
      SlotsLoad(c, slot + 1);
    }
  }

  lemma SettingLoads(ms: seq<Member>, key: string, was: Word, v: Word, lo: Word, hi: Word)
    requires lo <= was <= hi && lo <= v <= hi && Find(ms, key) == Some(Number(v))
    ensures Setting(ms, key, was, lo, hi) == Success(v)
  {
  }

  lemma FloorLoads(ms: seq<Member>, was: Word, v: Word, ramSize: Word)
    requires was != 0 && v != 0 && ramSize <= MAX_RAM
    requires Find(ms, "tlb-floor-address") == Some(String(IntToHexString(v)))
    ensures FloorSetting(ms, was, ramSize) == Success(v)
  {
    hide Stoul, IntToHexString, Find;
    FloorReads(v);
  }

  lemma NumbersLoad(c: Config)
    requires Bounded(c)
    ensures LoadNumbers(RootMembers(c), Factory()) ==
            Success(Factory().(cpus := c.cpus, clockRate := c.clockRate, tlbSize := c.tlbSize, tlbFloor := c.tlbFloor,
                               ramSize := c.ramSize))
  {
    hide RootMembers, Find, FloorSetting, Setting, IntToHexString, Factory;
    RootFindsNumbers(c);
    var ms, f := RootMembers(c), Factory();
    SettingLoads(ms, "num-processors", f.cpus, c.cpus, MIN_CPUS, MAX_CPUS);
    SettingLoads(ms, "clock-rate", f.clockRate, c.clockRate, MIN_CLOCK_RATE, MAX_CLOCK_RATE);
    SettingLoads(ms, "tlb-size", f.tlbSize, c.tlbSize, MIN_TLB, MAX_TLB);
    FloorLoads(ms, f.tlbFloor, c.tlbFloor, f.ramSize);
    SettingLoads(ms, "num-ram-frames", f.ramSize, c.ramSize, MIN_RAM, MAX_RAM);
  }

  lemma BootLoads(c: Config, d: Config)
    requires Bounded(c) && Bounded(d)
    ensures LoadBoot(RootMembers(c), d) == Success(d.(loadCore := c.loadCore, core := c.core))
  {
    hide RootMembers, StabMembers, NumberMembers, BootMembers, DevicesMembers, Find;
    RootFindsRest(c);
    BootFinds(c);
  }

  lemma RomsLoad(c: Config, d: Config)
    requires Bounded(c) && Bounded(d)
    ensures LoadRoms(RootMembers(c), d) == Success(d.(boot := c.boot, bios := c.bios))
  {
    hide RootMembers, StabMembers, NumberMembers, BootMembers, DevicesMembers, Find;
    RootFindsRest(c);
  }

  lemma StabLoads(c: Config, d: Config)
    requires Bounded(c) && Bounded(d)
    ensures LoadStab(RootMembers(c), d) == Success(d.(stab := c.stab, asid := c.asid))
  {
    hide RootMembers, StabMembers, NumberMembers, BootMembers, DevicesMembers, Find;
    RootFindsRest(c);
    StabFinds(c);
  }

  lemma TreeLoads(c: Config)
    requires Bounded(c)
    ensures LoadTree(Object(RootMembers(c))) == Success(Loaded(c, SLOTS))
  {
    var f := Factory();
    assert Loaded(c, 0).files == f.files && Loaded(c, 0).enabled == f.enabled && Loaded(c, 0).macs == f.macs;
    hide RootMembers, Find, LoadSlots, LoadNumbers, LoadBoot, LoadRoms, LoadStab, Factory, DevicesMembers;
    var c1 := f.(cpus := c.cpus, clockRate := c.clockRate, tlbSize := c.tlbSize, tlbFloor := c.tlbFloor,
                 ramSize := c.ramSize);
    NumbersLoad(c);
    BootLoads(c, c1);
    var c2 := c1.(loadCore := c.loadCore, core := c.core);
    RomsLoad(c, c2);
    var c3 := c2.(boot := c.boot, bios := c.bios);
    StabLoads(c, c3);
    var c4 := c3.(stab := c.stab, asid := c.asid);
    assert c4 == Loaded(c, 0);
    RootFindsRest(c);
    SlotsLoad(c, 0);
  }

  // ---------------------------------------------------------------- quotes

  /** No name that is saved holds a double quote. */
  predicate NamesUnquoted(c: Config) {
    && NoQuote(c.boot) && NoQuote(c.bios) && NoQuote(c.core) && NoQuote(c.stab)
    && forall f :: f in c.files ==> NoQuote(f)
  }

  predicate Printable(j: Node) {
    WellFormed(j) && Unquoted(j) && NonNegative(j)
  }

  lemma SetPrintable(ms: seq<Member>, key: string, value: Node)
    requires Printable(Object(ms)) && NoQuote(key) && Printable(value)
    ensures Printable(Object(Set(ms, key, value)))
  {
    hide Set, NoQuote, KeysAscend;
    SetKeepsOrder(ms, key, value);
  }

  lemma ScalarsPrintable(s: string, b: bool, n: Word)
    requires NoQuote(s) && n < 0x8000_0000
    ensures Printable(String(s)) && Printable(Bool(b)) && Printable(Number(n)) && Printable(Object([]))
  {
  }

  lemma DevicePrintable(enabled: bool, file: string, mac: Option<Mac>)
    requires NoQuote(file)
    ensures Printable(Object(DeviceMembers(enabled, file, mac)))
  {
    hide Set, MACIdToString, Printable;
    ScalarsPrintable(file, enabled, 0);
    SetPrintable([], "enabled", Bool(enabled));
    SetPrintable(Set([], "enabled", Bool(enabled)), "file", String(file));
    if mac.Some? {
      MacReads(mac.value);
      ScalarsPrintable(MACIdToString(mac.value), enabled, 0);
      SetPrintable(Set(Set([], "enabled", Bool(enabled)), "file", String(file)), "address",
                   String(MACIdToString(mac.value)));
    }
  }

  lemma {:induction false} DevicesPrintable(c: Config, n: nat)
    requires Bounded(c) && NamesUnquoted(c) && n <= SLOTS
    ensures Printable(Object(DevicesMembers(c, n)))
  {
    hide Set, DeviceMembers, Printable, Key;
    if n == 0 {
      ScalarsPrintable("", true, 0);
    } else {
      DevicesPrintable(c, n - 1);
      assert c.files[n - 1] in c.files;
      DevicePrintable(c.enabled[n - 1], c.files[n - 1], MacAt(c, n - 1));
      KeyIs(n - 1);
      if c.files[n - 1] != "" {
        SetPrintable(DevicesMembers(c, n - 1), Key(n - 1),
          Object(DeviceMembers(c.enabled[n - 1], c.files[n - 1], MacAt(c, n - 1))));
      }
    }
  }

  lemma NumbersPrintable(c: Config)
    requires Bounded(c)
    ensures Printable(Object(NumberMembers(c)))
  {
    hide Set, IntToHexString, Printable;
    FloorReads(c.tlbFloor);
    ScalarsPrintable(IntToHexString(c.tlbFloor), true, c.cpus);
    ScalarsPrintable("", true, c.clockRate);
    ScalarsPrintable("", true, c.tlbSize);
    ScalarsPrintable("", true, c.ramSize);
    var m1 := Set([], "num-processors", Number(c.cpus));
    var m2 := Set(m1, "clock-rate", Number(c.clockRate));
    var m3 := Set(m2, "tlb-size", Number(c.tlbSize));
    var m4 := Set(m3, "tlb-floor-address", String(IntToHexString(c.tlbFloor)));
    SetPrintable([], "num-processors", Number(c.cpus));
    SetPrintable(m1, "clock-rate", Number(c.clockRate));
    SetPrintable(m2, "tlb-size", Number(c.tlbSize));
    SetPrintable(m3, "tlb-floor-address", String(IntToHexString(c.tlbFloor)));
    SetPrintable(m4, "num-ram-frames", Number(c.ramSize));
  }

  lemma BootPrintable(c: Config)
    requires NamesUnquoted(c)
    ensures Printable(Object(BootMembers(c)))
  {
    hide Set, Printable;
    ScalarsPrintable(c.core, c.loadCore, 0);
    SetPrintable([], "load-core-file", Bool(c.loadCore));
    SetPrintable(Set([], "load-core-file", Bool(c.loadCore)), "core-file", String(c.core));
  }

  lemma StabPrintable(c: Config)
    requires Bounded(c) && NamesUnquoted(c)
    ensures Printable(Object(StabMembers(c)))
  {
    hide Set, Printable;
    ScalarsPrintable(c.stab, true, c.asid);
    SetPrintable([], "file", String(c.stab));
    SetPrintable(Set([], "file", String(c.stab)), "asid", Number(c.asid));
  }

  lemma RootPrintable(c: Config)
    requires Bounded(c) && NamesUnquoted(c)
    ensures Printable(Object(RootMembers(c)))
  {
    hide Set, Printable, NumberMembers, BootMembers, StabMembers, DevicesMembers;
    NumbersPrintable(c);
    BootPrintable(c);
    StabPrintable(c);
    DevicesPrintable(c, SLOTS);
    ScalarsPrintable(c.boot, true, 0);
    ScalarsPrintable(c.bios, true, 0);
    var m0 := NumberMembers(c);
    var m1 := Set(m0, "boot", Object(BootMembers(c)));
    var m2 := Set(m1, "bootstrap-rom", String(c.boot));
    var m3 := Set(m2, "execution-rom", String(c.bios));
    var m4 := Set(m3, "symbol-table", Object(StabMembers(c)));
    SetPrintable(m0, "boot", Object(BootMembers(c)));
    SetPrintable(m1, "bootstrap-rom", String(c.boot));
    SetPrintable(m2, "execution-rom", String(c.bios));
    SetPrintable(m3, "symbol-table", Object(StabMembers(c)));
    SetPrintable(m4, "devices", Object(DevicesMembers(c, SLOTS)));
  }

  /** What a file yields has no quotes in it. */
  lemma {:induction false} FoundUnquoted(ms: seq<Member>, key: string)
    requires Unquoted(Object(ms)) && Find(ms, key).Some?
    ensures Unquoted(Find(ms, key).value)
  {
    if ms[0].key != key { FoundUnquoted(ms[1..], key); }
  }

  lemma TextUnquoted(ms: seq<Member>, key: string)
    requires Unquoted(Object(ms))
    ensures GetText(ms, key).Success? ==> NoQuote(GetText(ms, key).value)
    ensures GetObject(ms, key).Success? ==> Unquoted(Object(GetObject(ms, key).value))
  {
    hide Find;
    if Find(ms, key).Some? { FoundUnquoted(ms, key); }
  }

  lemma SlotUnquoted(ms: seq<Member>, c: Config, slot: nat)
    requires Unquoted(Object(ms)) && Bounded(c) && NamesUnquoted(c) && slot < SLOTS
    ensures LoadSlot(ms, c, slot).Success? ==> NamesUnquoted(LoadSlot(ms, c, slot).value)
  {
    hide Unquoted, NoQuote, ParseMACId, Find, Key;
    TextUnquoted(ms, Key(slot));
    if GetObject(ms, Key(slot)).Success? {
      TextUnquoted(GetObject(ms, Key(slot)).value, "file");
    }
  }

  lemma {:induction false} SlotsUnquoted(ms: seq<Member>, c: Config, slot: nat)
    requires Unquoted(Object(ms)) && Bounded(c) && NamesUnquoted(c) && slot <= SLOTS
    ensures LoadSlots(ms, c, slot).Success? ==> NamesUnquoted(LoadSlots(ms, c, slot).value)
    decreases SLOTS - slot
  {
    hide LoadSlot, NamesUnquoted, Unquoted;
    if slot < SLOTS {
      SlotUnquoted(ms, c, slot);
      if LoadSlot(ms, c, slot).Success? { SlotsUnquoted(ms, LoadSlot(ms, c, slot).value, slot + 1); }
    }
  }

  lemma JoinUnquoted(a: string, b: string)
    requires NoQuote(a) && NoQuote(b)
    ensures NoQuote(a + b)
  {
  }

  lemma RomNamesUnquoted()
    ensures NoQuote(DATA_DIR) && NoQuote("/coreboot.rom.uriscv") && NoQuote("/exec.rom.uriscv")
  {
  }

  lemma FactoryUnquoted()
    ensures NamesUnquoted(Factory())
  {
    RomNamesUnquoted();
    JoinUnquoted(DATA_DIR, "/coreboot.rom.uriscv");
    JoinUnquoted(DATA_DIR, "/exec.rom.uriscv");
  }

  lemma NamesStayUnquoted(ms: seq<Member>, c: Config)
    requires Unquoted(Object(ms)) && Bounded(c) && NamesUnquoted(c)
    ensures LoadNumbers(ms, c).Success? ==> NamesUnquoted(LoadNumbers(ms, c).value)
    ensures LoadBoot(ms, c).Success? ==> NamesUnquoted(LoadBoot(ms, c).value)
    ensures LoadRoms(ms, c).Success? ==> NamesUnquoted(LoadRoms(ms, c).value)
    ensures LoadStab(ms, c).Success? ==> NamesUnquoted(LoadStab(ms, c).value)
  {
    hide Unquoted, NoQuote, Find, Stoul;
    TextUnquoted(ms, "boot");
    TextUnquoted(ms, "bootstrap-rom");
    TextUnquoted(ms, "execution-rom");
    TextUnquoted(ms, "symbol-table");
    if GetObject(ms, "boot").Success? { TextUnquoted(GetObject(ms, "boot").value, "core-file"); }
    if GetObject(ms, "symbol-table").Success? { TextUnquoted(GetObject(ms, "symbol-table").value, "file"); }
  }

  lemma TreeUnquoted(j: Node)
    requires Unquoted(j)
    ensures LoadTree(j).Success? ==> NamesUnquoted(LoadTree(j).value)
  {
    if LoadTree(j).Success? {
      hide LoadNumbers, LoadBoot, LoadRoms, LoadStab, LoadSlots, Find, Factory, Unquoted, NamesUnquoted;
      FactoryUnquoted();
      var ms := j.members;
      NamesStayUnquoted(ms, Factory());
      var c1 := LoadNumbers(ms, Factory()).value;
      NamesStayUnquoted(ms, c1);
      var c2 := LoadBoot(ms, c1).value;
      NamesStayUnquoted(ms, c2);
      var c3 := LoadRoms(ms, c2).value;
      NamesStayUnquoted(ms, c3);
      var c4 := LoadStab(ms, c3).value;
      TextUnquoted(ms, "devices");
      if GetObject(ms, "devices").Success? { SlotsUnquoted(GetObject(ms, "devices").value, c4, 0); }
    }
  }

  // ---------------------------------------------------------------- the theorems

  /** Slots without a file are off, and every MAC id is one that is kept. */
  ghost predicate Faithful(c: Config)
    requires Bounded(c)
  {
    && (forall i :: 0 <= i < SLOTS && c.enabled[i] ==> c.files[i] != "")
    && (forall d :: 0 <= d < N_DEV_PER_IL && c.macs[d].Some? ==> MacKept(c, d))
  }

  /** Saving and loading keeps every number and name; it turns off slots without a
      file and drops the MAC ids that cannot be kept. */
  lemma LoadOfSaved(c: Config)
    requires Bounded(c) && NamesUnquoted(c)
    ensures LoadedFrom(SavedText(c)) == Success(Loaded(c, SLOTS))
  {
    hide RootMembers, LoadTree, Loaded, Print, Parse;
    RootPrintable(c);
    RoundTripIff(Object(RootMembers(c)), SaveLayout());
    TreeLoads(c);
  }

  /** The configurations that come back unchanged, exactly. */
  lemma SaveLoadIff(c: Config)
    requires Bounded(c)
    ensures LoadedFrom(SavedText(c)) == Success(c) <==> NamesUnquoted(c) && Faithful(c)
  {
    hide LoadTree, Print, ParseNode, SavedText;
    if NamesUnquoted(c) {
      LoadOfSaved(c);
      LoadedIsSameIff(c);
    } else {
      var text := SavedText(c);
      NodeIsSound(State(text, "", None));
      if Parse(text).Some? { TreeUnquoted(Parse(text).value); }
    }
  }

  lemma LoadedIsSameIff(c: Config)
    requires Bounded(c)
    ensures Loaded(c, SLOTS) == c <==> Faithful(c)
  {
    var r := Loaded(c, SLOTS);
    assert r.files == c.files;
    if Faithful(c) {
      assert r.enabled == c.enabled && r.macs == c.macs;
    }
  }

  /** Whatever the first save and load change, the second changes nothing more. */
  lemma SavingTwiceIsOnce(c: Config)
    requires Bounded(c) && NamesUnquoted(c)
    ensures LoadedFrom(SavedText(Loaded(c, SLOTS))) == LoadedFrom(SavedText(c))
  {
    hide LoadedFrom, SavedText;
    LoadOfSaved(c);
    var r := Loaded(c, SLOTS);
    assert r.files == c.files;
    LoadOfSaved(r);
    LoadedIsSameIff(r);
    assert forall d :: 0 <= d < N_DEV_PER_IL && r.macs[d].Some? ==> r.macs[d] == c.macs[d];
  }
}
