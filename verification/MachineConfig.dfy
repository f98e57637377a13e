/** A machine configuration, and the text it is saved as and loaded from. */
module MachineConfigs {
  import opened Words
  import opened Arch
  import opened Json

  const SLOTS := N_EXT_IL * N_DEV_PER_IL
  const ETHERNET := 2
  const RAMBASE := 0x2000_0000
  const FRAME_BYTES := 4096

  const MIN_RAM := 8
  const MAX_RAM := 512
  const DEFAULT_RAM := 64
  const MIN_CPUS := 1
  const MIN_CLOCK_RATE := 1
  const MAX_CLOCK_RATE := 99
  const MIN_TLB := 4
  const MAX_TLB := 64
  const DEFAULT_TLB := 16
  const MIN_ASID := 0
  const MAX_ASID := 64

  /** Where the installation keeps its ROMs; fixed when the program is built. */
  const DATA_DIR := "/usr/local/share/uriscv"

  type Mac = m: seq<nat> | |m| == 6 && forall i :: 0 <= i < 6 ==> m[i] < 256 witness [0, 0, 0, 0, 0, 0]

  /** Device slots are numbered line by line, eight to a line. */
  datatype Config = Config(
    cpus: Word, clockRate: Word, tlbSize: Word, tlbFloor: Word, ramSize: Word,
    loadCore: bool, boot: string, bios: string, core: string, stab: string, asid: Word,
    files: seq<string>, enabled: seq<bool>, macs: seq<Option<Mac>>)

  /** The nearest value within bounds. */
  function Bump(lo: Word, v: Word, hi: Word): (r: Word)
    ensures v < lo ==> r == lo
    ensures lo <= v <= hi ==> r == v
    ensures lo <= hi < v ==> r == hi
  {
    if v < lo then lo else if v > hi then hi else v
  }

  function FloorFor(addr: Word, ramSize: Word): Word
    requires ramSize <= MAX_RAM
  {
    if addr == 0 then RAMBASE + ramSize * FRAME_BYTES else addr
  }

  /** Every number within its declared bounds, and a floor that is not 0. */
  ghost predicate Bounded(c: Config) {
    && MIN_CPUS <= c.cpus <= MAX_CPUS && MIN_CLOCK_RATE <= c.clockRate <= MAX_CLOCK_RATE
    && MIN_TLB <= c.tlbSize <= MAX_TLB && c.tlbFloor != 0 && MIN_RAM <= c.ramSize <= MAX_RAM && c.asid <= MAX_ASID
    && |c.files| == |c.enabled| == SLOTS && |c.macs| == N_DEV_PER_IL
  }

  function Factory(): (c: Config)
    ensures Bounded(c)
  {
    Config(1, 1, DEFAULT_TLB, 0xFFFF_FFFF, DEFAULT_RAM, true,
           DATA_DIR + "/coreboot.rom.uriscv", DATA_DIR + "/exec.rom.uriscv",
           "kernel.core.uriscv", "kernel.stab.uriscv", MAX_ASID,
           seq(SLOTS, _ => ""), seq(SLOTS, _ => false), seq(N_DEV_PER_IL, _ => None))
  }

  // ---------------------------------------------------------------- hexadecimal

  function HexDigit(d: nat): char
    requires d < 16
  {
    if d < 10 then '0' + d as char else 'a' + (d - 10) as char
  }

  function Hex(v: nat, digits: nat): string {
    if digits == 0 then "" else Hex(v / 16, digits - 1) + [HexDigit(v % 16)]
  }

  predicate IsHex(c: char) {
    '0' <= c <= '9' || 'a' <= c <= 'f' || 'A' <= c <= 'F'
  }

  function HexValue(c: char): (v: nat)
    requires IsHex(c)
    ensures v < 16
  {
    if '0' <= c <= '9' then (c - '0') as nat
    else if 'a' <= c <= 'f' then 10 + (c - 'a') as nat
    else 10 + (c - 'A') as nat
  }

  /** The sixteen digits; letters are read in either case and written in lower case. */
  lemma DigitsAre(d: nat, c: char)
    requires d < 16
    ensures HexDigit(d) == "0123456789abcdef"[d]
    ensures IsHex(c) && HexValue(c) == d <==> c == "0123456789abcdef"[d] || c == "0123456789ABCDEF"[d]
  {
  }

  /** Value of the hexadecimal digits at the start of a text. */
  function TakeHex(s: string, acc: nat): nat {
    if s != "" && IsHex(s[0]) then TakeHex(s[1..], 16 * acc + HexValue(s[0])) else acc
  }

  predicate IsSign(c: char) {
    c == '+' || c == '-'
  }

  /** The library's unsigned conversion in base 16; None where it throws. */
  function Stoul(s: string): Option<nat> {
    var u := SkipSpace(s);
    var signed := u != "" && IsSign(u[0]);
    var t := if signed then u[1..] else u;
    var d := if |t| > 2 && t[0] == '0' && (t[1] == 'x' || t[1] == 'X') && IsHex(t[2]) then t[2..] else t;
    if d == "" || !IsHex(d[0]) then None
    else
      var v := TakeHex(d, 0);
      if v >= 0x1_0000_0000_0000_0000 then None
      else if signed && u[0] == '-' && v != 0 then Some(0x1_0000_0000_0000_0000 - v)
      else Some(v)
  }

  function IntToHexString(w: Word): string {
    "0x" + Hex(w, 8)
  }

  function MACIdToString(m: Mac): string {
    Hex(m[0], 2) + (":" + (Hex(m[1], 2) + (":" + (Hex(m[2], 2) +
      (":" + (Hex(m[3], 2) + (":" + (Hex(m[4], 2) + (":" + Hex(m[5], 2))))))))))
  }

  /** A scanned field of at most two characters, and what follows it. */
  function HexField(s: string): Option<(Word, string)> {
    var u := SkipSpace(s);
    if u == "" then None
    else if IsSign(u[0]) then
      if |u| > 1 && IsHex(u[1]) then
        var v := HexValue(u[1]);
        Some((if u[0] == '-' && v != 0 then WORD_SIZE - v else v, u[2..]))
      else None
    else if !IsHex(u[0]) then None
    else if |u| > 1 && IsHex(u[1]) then Some((16 * HexValue(u[0]) + HexValue(u[1]), u[2..]))
    else if |u| > 1 && u[0] == '0' && (u[1] == 'x' || u[1] == 'X') then None
    else Some((HexValue(u[0]), u[1..]))
  }

  /** `n` fields with a colon between each two; what follows is not looked at. */
  function ScanGroups(s: string, n: nat): (r: Option<seq<Word>>)
    ensures r.Some? ==> |r.value| == n
    decreases n
  {
    if n == 0 then Some([])
    else
      match HexField(s)
      case None => None
      case Some((v, rest)) =>
        if n == 1 then Some([v])
        else if rest == "" || rest[0] != ':' then None
        else
          match ScanGroups(rest[1..], n - 1)
          case None => None
          case Some(vs) => Some([v] + vs)
  }

  function ParseMACId(s: string): Option<Mac> {
    match ScanGroups(s, 6)
    case None => None
    case Some(g) =>
      if g[0] % 2 == 1 then None else Some(ToBytes(g))
  }

  function ToBytes(g: seq<Word>): Mac
    requires |g| == 6
  {
    seq(6, i requires 0 <= i < 6 => g[i] % 256)
  }

  // ---------------------------------------------------------------- saving

  function DeviceKeyPrefix(il: nat): string
    requires il < N_EXT_IL
  {
    if il == 0 then "disk" else if il == 1 then "flash" else if il == 2 then "eth"
    else if il == 3 then "printer" else "terminal"
  }

  function Key(slot: nat): string
    requires slot < SLOTS
  {
    DeviceKeyPrefix(slot / N_DEV_PER_IL) + Digits(slot % N_DEV_PER_IL)
  }

  function MacAt(c: Config, slot: nat): Option<Mac>
    requires slot < SLOTS && |c.macs| == N_DEV_PER_IL
  {
    if slot / N_DEV_PER_IL == ETHERNET then c.macs[slot % N_DEV_PER_IL] else None
  }

  function DeviceMembers(enabled: bool, file: string, mac: Option<Mac>): seq<Member> {
    var ms := Set(Set([], "enabled", Bool(enabled)), "file", String(file));
    if mac.Some? then Set(ms, "address", String(MACIdToString(mac.value))) else ms
  }

  /** The entries of the first `n` slots; a slot without a file has none. */
  function DevicesMembers(c: Config, n: nat): seq<Member>
    requires Bounded(c) && n <= SLOTS
  {
    if n == 0 then []
    else
      var ms := DevicesMembers(c, n - 1);
      if c.files[n - 1] == "" then ms
      else Set(ms, Key(n - 1), Object(DeviceMembers(c.enabled[n - 1], c.files[n - 1], MacAt(c, n - 1))))
  }

  function BootMembers(c: Config): seq<Member> {
    Set(Set([], "load-core-file", Bool(c.loadCore)), "core-file", String(c.core))
  }

  function StabMembers(c: Config): seq<Member> {
    Set(Set([], "file", String(c.stab)), "asid", Number(c.asid))
  }

  function NumberMembers(c: Config): seq<Member> {
    Set(Set(Set(Set(Set([], "num-processors", Number(c.cpus)), "clock-rate", Number(c.clockRate)),
      "tlb-size", Number(c.tlbSize)), "tlb-floor-address", String(IntToHexString(c.tlbFloor))),
      "num-ram-frames", Number(c.ramSize))
  }

  function RootMembers(c: Config): seq<Member>
    requires Bounded(c)
  {
    Set(Set(Set(Set(Set(NumberMembers(c), "boot", Object(BootMembers(c))), "bootstrap-rom", String(c.boot)),
      "execution-rom", String(c.bios)), "symbol-table", Object(StabMembers(c))),
      "devices", Object(DevicesMembers(c, SLOTS)))
  }

  function SaveLayout(): Layout {
    Layout(true, 4)
  }

  function SavedText(c: Config): string
    requires Bounded(c)
  {
    Print(Object(RootMembers(c)), SaveLayout(), 0)
  }

  // ---------------------------------------------------------------- loading

  function Find(ms: seq<Member>, key: string): Option<Node> {
    if ms == [] then None else if ms[0].key == key then Some(ms[0].value) else Find(ms[1..], key)
  }

  /** The three errors LoadFromFile reports, and the exception it lets through. */
  datatype Error = Syntax | ObjectExpected | Invalid | BadAddress

  datatype Result<T> = Success(value: T) | Failure(error: Error) {
    predicate IsFailure() { Failure? }
    function PropagateFailure<U>(): Result<U>
      requires Failure?
    { Failure(error) }
    function Extract(): T
      requires Success?
    { value }
  }

  /** A member of the given shape that must be there. */
  function GetText(ms: seq<Member>, key: string): Result<string> {
    match Find(ms, key) case Some(String(s)) => Success(s) case _ => Failure(Invalid)
  }

  function GetBool(ms: seq<Member>, key: string): Result<bool> {
    match Find(ms, key) case Some(Bool(b)) => Success(b) case _ => Failure(Invalid)
  }

  function GetWord(ms: seq<Member>, key: string): Result<Word> {
    match Find(ms, key) case Some(Number(n)) => Success(n % WORD_SIZE) case _ => Failure(Invalid)
  }

  function GetObject(ms: seq<Member>, key: string): Result<seq<Member>> {
    match Find(ms, key) case Some(Object(os)) => Success(os) case _ => Failure(Invalid)
  }

  /** A number that may be missing, clamped when it is set. */
  function Setting(ms: seq<Member>, key: string, was: Word, lo: Word, hi: Word): (r: Result<Word>)
    requires lo <= was <= hi
    ensures r.Success? ==> lo <= r.value <= hi
  {
    if Find(ms, key).None? then Success(was)
    else
      var v :- GetWord(ms, key);
      Success(Bump(lo, v, hi))
  }

  function FloorSetting(ms: seq<Member>, was: Word, ramSize: Word): (r: Result<Word>)
    requires was != 0 && ramSize <= MAX_RAM
    ensures r.Success? ==> r.value != 0
  {
    if Find(ms, "tlb-floor-address").None? then Success(was)
    else
      var s :- GetText(ms, "tlb-floor-address");
      match Stoul(s[Min(2, |s|)..])
      case None => Failure(BadAddress)
      case Some(v) => Success(FloorFor(v % WORD_SIZE, ramSize))
  }

  function TextSetting(ms: seq<Member>, key: string, was: string): Result<string> {
    if Find(ms, key).None? then Success(was) else GetText(ms, key)
  }

  function LoadProcessors(ms: seq<Member>, c: Config): (r: Result<Config>)
    requires Bounded(c)
    ensures r.Success? ==> Bounded(r.value)
  {
    var cpus :- Setting(ms, "num-processors", c.cpus, MIN_CPUS, MAX_CPUS);
    var clockRate :- Setting(ms, "clock-rate", c.clockRate, MIN_CLOCK_RATE, MAX_CLOCK_RATE);
    Success(c.(cpus := cpus, clockRate := clockRate))
  }

  function LoadMemory(ms: seq<Member>, c: Config): (r: Result<Config>)
    requires Bounded(c)
    ensures r.Success? ==> Bounded(r.value)
  {
    var tlbSize :- Setting(ms, "tlb-size", c.tlbSize, MIN_TLB, MAX_TLB);
    var tlbFloor :- FloorSetting(ms, c.tlbFloor, c.ramSize);
    var ramSize :- Setting(ms, "num-ram-frames", c.ramSize, MIN_RAM, MAX_RAM);
    Success(c.(tlbSize := tlbSize, tlbFloor := tlbFloor, ramSize := ramSize))
  }

  function LoadNumbers(ms: seq<Member>, c: Config): (r: Result<Config>)
    requires Bounded(c)
    ensures r.Success? ==> Bounded(r.value)
  {
    var d :- LoadProcessors(ms, c);
    LoadMemory(ms, d)
  }

  function LoadBoot(ms: seq<Member>, c: Config): (r: Result<Config>)
    requires Bounded(c)
    ensures r.Success? ==> Bounded(r.value)
  {
    if Find(ms, "boot").None? then Success(c)
    else
      var boot :- GetObject(ms, "boot");
      var loadCore :- GetBool(boot, "load-core-file");
      var core :- GetText(boot, "core-file");
      Success(c.(loadCore := loadCore, core := core))
  }

  function LoadRoms(ms: seq<Member>, c: Config): (r: Result<Config>)
    requires Bounded(c)
    ensures r.Success? ==> Bounded(r.value)
  {
    var boot :- TextSetting(ms, "bootstrap-rom", c.boot);
    var bios :- TextSetting(ms, "execution-rom", c.bios);
    Success(c.(boot := boot, bios := bios))
  }

  function LoadStab(ms: seq<Member>, c: Config): (r: Result<Config>)
    requires Bounded(c)
    ensures r.Success? ==> Bounded(r.value)
  {
    if Find(ms, "symbol-table").None? then Success(c)
    else
      var table :- GetObject(ms, "symbol-table");
      var stab :- GetText(table, "file");
      var asid :- GetWord(table, "asid");
      Success(c.(stab := stab, asid := Bump(MIN_ASID, asid, MAX_ASID)))
  }

  function LoadMac(ms: seq<Member>, c: Config, slot: nat): (r: Result<Config>)
    requires Bounded(c) && slot < SLOTS
    ensures r.Success? ==> Bounded(r.value)
  {
    if slot / N_DEV_PER_IL != ETHERNET || Find(ms, "address").None? then Success(c)
    else
      var address :- GetText(ms, "address");
      match ParseMACId(address)
      case None => Success(c)
      case Some(m) => Success(c.(macs := c.macs[slot % N_DEV_PER_IL := Some(m)]))
  }

  function LoadSlot(ms: seq<Member>, c: Config, slot: nat): (r: Result<Config>)
    requires Bounded(c) && slot < SLOTS
    ensures r.Success? ==> Bounded(r.value)
  {
    if Find(ms, Key(slot)).None? then Success(c)
    else
      var device :- GetObject(ms, Key(slot));
      var enabled :- GetBool(device, "enabled");
      var file :- GetText(device, "file");
      LoadMac(device, c.(enabled := c.enabled[slot := enabled], files := c.files[slot := file]), slot)
  }

  /** The slots from `slot` on. */
  function LoadSlots(ms: seq<Member>, c: Config, slot: nat): (r: Result<Config>)
    requires Bounded(c) && slot <= SLOTS
    ensures r.Success? ==> Bounded(r.value)
    decreases SLOTS - slot
  {
    if slot == SLOTS then Success(c)
    else
      var c1 :- LoadSlot(ms, c, slot);
      LoadSlots(ms, c1, slot + 1)
  }

  function LoadDevices(ms: seq<Member>, c: Config): (r: Result<Config>)
    requires Bounded(c)
    ensures r.Success? ==> Bounded(r.value)
  {
    if Find(ms, "devices").None? then Success(c)
    else
      var devices :- GetObject(ms, "devices");
      LoadSlots(devices, c, 0)
  }

  function LoadTree(j: Node): (r: Result<Config>)
    ensures r.Success? ==> Bounded(r.value)
  {
    if !j.Object? then Failure(ObjectExpected)
    else
      var c1 :- LoadNumbers(j.members, Factory());
      var c2 :- LoadBoot(j.members, c1);
      var c3 :- LoadRoms(j.members, c2);
      var c4 :- LoadStab(j.members, c3);
      LoadDevices(j.members, c4)
  }

  /** Whatever a file holds, a configuration loaded from it is within bounds. */
  function LoadedFrom(text: string): (r: Result<Config>)
    ensures r.Success? ==> Bounded(r.value)
  {
    match Parse(text)
    case None => Failure(Syntax)
    case Some(j) => LoadTree(j)
  }
}
