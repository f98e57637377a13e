/** The configuration object: setters that clamp, and the file it is saved to and
    loaded from. */
module MachineConfigObjects {
  import opened Words
  import opened Arch
  import opened Json
  import opened MachineConfigs
  import JsonParsers

  class MachineConfig {
    var ramSize: Word
    var cpus: Word
    var clockRate: Word
    var tlbSize: Word
    var tlbFloorAddress: Word
    var loadCoreFile: bool
    var bootRom: string
    var biosRom: string
    var coreFile: string
    var stabFile: string
    var symbolTableASID: Word
    var devFiles: seq<string>
    var devEnabled: seq<bool>
    var macId: seq<Option<Mac>>

    ghost function Value(): Config
      reads this
    {
      Config(cpus, clockRate, tlbSize, tlbFloorAddress, ramSize, loadCoreFile, bootRom, biosRom, coreFile, stabFile,
             symbolTableASID, devFiles, devEnabled, macId)
    }

    ghost predicate Valid()
      reads this
    {
      Bounded(Value())
    }

    constructor ()
      ensures Value() == Factory()
    {
      cpus := Bump(MIN_CPUS, 1, MAX_CPUS);
      clockRate := Bump(MIN_CLOCK_RATE, 1, MAX_CLOCK_RATE);
      tlbSize := Bump(MIN_TLB, DEFAULT_TLB, MAX_TLB);
      tlbFloorAddress := 0xFFFF_FFFF;
      ramSize := Bump(MIN_RAM, DEFAULT_RAM, MAX_RAM);
      bootRom := DATA_DIR + "/coreboot.rom.uriscv";
      biosRom := DATA_DIR + "/exec.rom.uriscv";
      loadCoreFile := true;
      coreFile := "kernel.core.uriscv";
      stabFile := "kernel.stab.uriscv";
      symbolTableASID := MAX_ASID;
      devFiles := seq(SLOTS, _ => "");
      devEnabled := seq(SLOTS, _ => false);
      macId := seq(N_DEV_PER_IL, _ => None);
    }

    method SetRamSize(size: Word)
      requires Valid()
      modifies `ramSize
      ensures Valid() && ramSize == Bump(MIN_RAM, size, MAX_RAM)
    {
      ramSize := Bump(MIN_RAM, size, MAX_RAM);
    }

    method SetNumProcessors(value: Word)
      requires Valid()
      modifies `cpus
      ensures Valid() && cpus == Bump(MIN_CPUS, value, MAX_CPUS)
    {
      cpus := Bump(MIN_CPUS, value, MAX_CPUS);
    }

    method SetClockRate(value: Word)
      requires Valid()
      modifies `clockRate
      ensures Valid() && clockRate == Bump(MIN_CLOCK_RATE, value, MAX_CLOCK_RATE)
    {
      clockRate := Bump(MIN_CLOCK_RATE, value, MAX_CLOCK_RATE);
    }

    method SetTLBSize(size: Word)
      requires Valid()
      modifies `tlbSize
      ensures Valid() && tlbSize == Bump(MIN_TLB, size, MAX_TLB)
    {
      tlbSize := Bump(MIN_TLB, size, MAX_TLB);
    }

    /** An address of 0 stands for the end of RAM as it is sized now. */
    method SetTLBFloorAddress(addr: Word)
      requires Valid()
      modifies `tlbFloorAddress
      ensures Valid() && tlbFloorAddress == FloorFor(addr, ramSize)
      ensures tlbFloorAddress == if addr == 0 then 0x2000_0000 + ramSize * 0x1000 else addr
    {
      if addr == 0 {
        tlbFloorAddress := RAMBASE + ramSize * FRAME_BYTES;
      } else {
        tlbFloorAddress := addr;
      }
    }

    method SetSymbolTableASID(asid: Word)
      requires Valid()
      modifies `symbolTableASID
      ensures Valid() && symbolTableASID == Bump(MIN_ASID, asid, MAX_ASID)
    {
      symbolTableASID := Bump(MIN_ASID, asid, MAX_ASID);
    }

    method SetDevice(il: nat, devNo: nat, enabled: bool, file: string)
      requires Valid() && il < N_EXT_IL && devNo < N_DEV_PER_IL
      modifies `devEnabled, `devFiles
      ensures Valid()
      ensures devEnabled == old(devEnabled)[il * N_DEV_PER_IL + devNo := enabled]
      ensures devFiles == old(devFiles)[il * N_DEV_PER_IL + devNo := file]
    {
      devEnabled := devEnabled[il * N_DEV_PER_IL + devNo := enabled];
      devFiles := devFiles[il * N_DEV_PER_IL + devNo := file];
    }

    method SetMACId(devNo: nat, value: Option<Mac>)
      requires Valid() && devNo < N_DEV_PER_IL
      modifies `macId
      ensures Valid() && macId == old(macId)[devNo := value]
    {
      macId := macId[devNo := value];
    }

    // -------------------------------------------------------------- saving

    method Save() returns (text: string)
      requires Valid()
      ensures text == SavedText(Value())
    {
      hide Set, Print, DevicesMembers;
      var root := Set([], "num-processors", Number(cpus));
      root := Set(root, "clock-rate", Number(clockRate));
      root := Set(root, "tlb-size", Number(tlbSize));
      root := Set(root, "tlb-floor-address", String(IntToHexString(tlbFloorAddress)));
      root := Set(root, "num-ram-frames", Number(ramSize));
      var bootOpt := Set([], "load-core-file", Bool(loadCoreFile));
      bootOpt := Set(bootOpt, "core-file", String(coreFile));
      root := Set(root, "boot", Object(bootOpt));
      root := Set(root, "bootstrap-rom", String(bootRom));
      root := Set(root, "execution-rom", String(biosRom));
      var stab := Set([], "file", String(stabFile));
      stab := Set(stab, "asid", Number(symbolTableASID));
      root := Set(root, "symbol-table", Object(stab));
      var devices := SaveDevices();
      root := Set(root, "devices", Object(devices));
      var buf := new JsonParsers.Output();
      buf.Serialize(Object(root), SaveLayout(), 0);
      text := buf.text;
      assert "" + text == text;
    }

    method SaveDevices() returns (devices: seq<Member>)
      requires Valid()
      ensures devices == DevicesMembers(Value(), SLOTS)
    {
      hide Set, Key, MACIdToString;
      devices := [];
      for il := 0 to N_EXT_IL
        invariant devices == DevicesMembers(Value(), il * N_DEV_PER_IL)
      {
        for devNo := 0 to N_DEV_PER_IL
          invariant devices == DevicesMembers(Value(), il * N_DEV_PER_IL + devNo)
        {
          var slot := il * N_DEV_PER_IL + devNo;
          assert slot / N_DEV_PER_IL == il && slot % N_DEV_PER_IL == devNo;
          if devFiles[slot] != "" {
            var entry := Set([], "enabled", Bool(devEnabled[slot]));
            entry := Set(entry, "file", String(devFiles[slot]));
            if il == ETHERNET && macId[devNo].Some? {
              entry := Set(entry, "address", String(MACIdToString(macId[devNo].value)));
            }
            devices := Set(devices, Key(slot), Object(entry));
          }
        }
      }
    }

    // -------------------------------------------------------------- loading

    /** The outcome of one part of the loading. */
    ghost predicate Did(failed: Option<Error>, r: Result<Config>)
      reads this
    {
      match r
      case Success(c) => failed == None && Value() == c
      case Failure(e) => failed == Some(e)
    }

    static method LoadFromFile(text: string) returns (r: Result<MachineConfig>)
      ensures match LoadedFrom(text)
              case Success(c) => r.Success? && fresh(r.value) && r.value.Valid() && r.value.Value() == c
              case Failure(e) => r == Failure(e)
    {
      hide Json.Parse, LoadNumbers, LoadBoot, LoadRoms, LoadStab, LoadDevices, Factory;
      var parser := new JsonParsers.JsonParser();
      var root := parser.Parse(text);
      if root.None? { return Failure(Syntax); }
      if !root.value.Object? { return Failure(ObjectExpected); }
      var ms := root.value.members;
      var config := new MachineConfig();
      var failed := config.ApplyNumbers(ms);
      if failed.Some? { return Failure(failed.value); }
      failed := config.ApplyBoot(ms);
      if failed.Some? { return Failure(failed.value); }
      failed := config.ApplyRoms(ms);
      if failed.Some? { return Failure(failed.value); }
      failed := config.ApplyStab(ms);
      if failed.Some? { return Failure(failed.value); }
      failed := config.ApplyDevices(ms);
      if failed.Some? { return Failure(failed.value); }
      r := Success(config);
    }

    method ApplyNumbers(ms: seq<Member>) returns (failed: Option<Error>)
      requires Valid()
      modifies this
      ensures Did(failed, LoadNumbers(ms, old(Value())))
    {
      hide LoadProcessors, LoadMemory;
      failed := ApplyProcessors(ms);
      if failed.None? { failed := ApplyMemory(ms); }
    }

    method ApplyProcessors(ms: seq<Member>) returns (failed: Option<Error>)
      requires Valid()
      modifies this
      ensures Did(failed, LoadProcessors(ms, old(Value())))
    {
      hide Find, Bump, GetWord;
      if Find(ms, "num-processors").Some? {
        var v := GetWord(ms, "num-processors");
        if v.Failure? { return Some(v.error); }
        SetNumProcessors(v.value);
      }
      if Find(ms, "clock-rate").Some? {
        var v := GetWord(ms, "clock-rate");
        if v.Failure? { return Some(v.error); }
        SetClockRate(v.value);
      }
      failed := None;
    }

    method ApplyMemory(ms: seq<Member>) returns (failed: Option<Error>)
      requires Valid()
      modifies this
      ensures Did(failed, LoadMemory(ms, old(Value())))
    {
      hide Find, FloorSetting, Bump, GetWord;
      if Find(ms, "tlb-size").Some? {
        var v := GetWord(ms, "tlb-size");
        if v.Failure? { return Some(v.error); }
        SetTLBSize(v.value);
      }
      failed := ApplyFloor(ms);
      if failed.Some? { return failed; }
      if Find(ms, "num-ram-frames").Some? {
        var v := GetWord(ms, "num-ram-frames");
        if v.Failure? { return Some(v.error); }
        SetRamSize(v.value);
      }
      failed := None;
    }

    method ApplyFloor(ms: seq<Member>) returns (failed: Option<Error>)
      requires Valid()
      modifies `tlbFloorAddress
      ensures match FloorSetting(ms, old(tlbFloorAddress), ramSize)
              case Success(w) => failed == None && tlbFloorAddress == w
              case Failure(e) => failed == Some(e) && tlbFloorAddress == old(tlbFloorAddress)
    {
      hide Find, Stoul;
      if Find(ms, "tlb-floor-address").Some? {
        var s := GetText(ms, "tlb-floor-address");
        if s.Failure? { return Some(s.error); }
        var v := Stoul(s.value[Min(2, |s.value|)..]);
        if v.None? { return Some(BadAddress); }
        SetTLBFloorAddress(v.value % WORD_SIZE);
      }
      failed := None;
    }

    method ApplyBoot(ms: seq<Member>) returns (failed: Option<Error>)
      requires Valid()
      modifies this
      ensures Did(failed, LoadBoot(ms, old(Value())))
    {
      hide Find;
      if Find(ms, "boot").Some? {
        var boot := GetObject(ms, "boot");
        if boot.Failure? { return Some(boot.error); }
        var enabled := GetBool(boot.value, "load-core-file");
        if enabled.Failure? { return Some(enabled.error); }
        loadCoreFile := enabled.value;
        var core := GetText(boot.value, "core-file");
        if core.Failure? { return Some(core.error); }
        coreFile := core.value;
      }
      failed := None;
    }

    method ApplyRoms(ms: seq<Member>) returns (failed: Option<Error>)
      requires Valid()
      modifies this
      ensures Did(failed, LoadRoms(ms, old(Value())))
    {
      hide Find;
      if Find(ms, "bootstrap-rom").Some? {
        var rom := GetText(ms, "bootstrap-rom");
        if rom.Failure? { return Some(rom.error); }
        bootRom := rom.value;
      }
      if Find(ms, "execution-rom").Some? {
        var rom := GetText(ms, "execution-rom");
        if rom.Failure? { return Some(rom.error); }
        biosRom := rom.value;
      }
      failed := None;
    }

    method ApplyStab(ms: seq<Member>) returns (failed: Option<Error>)
      requires Valid()
      modifies this
      ensures Did(failed, LoadStab(ms, old(Value())))
    {
      hide Find;
      if Find(ms, "symbol-table").Some? {
        var stab := GetObject(ms, "symbol-table");
        if stab.Failure? { return Some(stab.error); }
        var file := GetText(stab.value, "file");
        if file.Failure? { return Some(file.error); }
        stabFile := file.value;
        var asid := GetWord(stab.value, "asid");
        if asid.Failure? { return Some(asid.error); }
        SetSymbolTableASID(asid.value);
      }
      failed := None;
    }

    method ApplyDevices(ms: seq<Member>) returns (failed: Option<Error>)
      requires Valid()
      modifies this
      ensures Did(failed, LoadDevices(ms, old(Value())))
    {
      hide Find, LoadSlot;
      if Find(ms, "devices").None? { return None; }
      var devices := GetObject(ms, "devices");
      if devices.Failure? { return Some(devices.error); }
      ghost var all := LoadSlots(devices.value, Value(), 0);
      for il := 0 to N_EXT_IL
        invariant Valid() && LoadSlots(devices.value, Value(), il * N_DEV_PER_IL) == all
      {
        for devNo := 0 to N_DEV_PER_IL
          invariant Valid() && LoadSlots(devices.value, Value(), il * N_DEV_PER_IL + devNo) == all
        {
          failed := ApplySlot(devices.value, il, devNo);
          if failed.Some? { return failed; }
        }
      }
      failed := None;
    }

    method ApplySlot(devices: seq<Member>, il: nat, devNo: nat) returns (failed: Option<Error>)
      requires Valid() && il < N_EXT_IL && devNo < N_DEV_PER_IL
      modifies this
      ensures Did(failed, LoadSlot(devices, old(Value()), il * N_DEV_PER_IL + devNo))
    {
      hide Find, Key, ParseMACId;
      var slot := il * N_DEV_PER_IL + devNo;
      assert slot / N_DEV_PER_IL == il && slot % N_DEV_PER_IL == devNo;
      if Find(devices, Key(slot)).Some? {
        var device := GetObject(devices, Key(slot));
        if device.Failure? { return Some(device.error); }
        var enabled := GetBool(device.value, "enabled");
        if enabled.Failure? { return Some(enabled.error); }
        var file := GetText(device.value, "file");
        if file.Failure? { return Some(file.error); }
        SetDevice(il, devNo, enabled.value, file.value);
        if il == ETHERNET && Find(device.value, "address").Some? {
          var address := GetText(device.value, "address");
          if address.Failure? { return Some(address.error); }
          var mac := ParseMACId(address.value);
          if mac.Some? { SetMACId(devNo, mac); }
        }
      }
      failed := None;
    }
  }
}
