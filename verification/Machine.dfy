/** The typed description of a virtual machine, what is refused of it, and its shape. */
module Machine {
  import opened Text
  import Cmdline

  datatype Image = Image(fdSet: int, format: string)

  datatype Disk = Disk(
    path: string, chain: seq<Image>, format: string, readonly: bool,
    serial: string, locking: bool, directOverBacking: bool)

  datatype FD = FD(num: int, note: string)

  datatype FDSet = FDSet(id: int, fds: seq<FD>)

  datatype NIC = NIC(tapFD: int, vhostFD: int, mac: string, mtu: int)

  datatype Monitor = Monitor(socket: string, fd: int)

  datatype Spec = Spec(
    qemu: string, kernel: string, initrd: string, firmware: string, bios: string,
    bootCPUs: int, maxCPUs: int, sizeMB: int, maxMB: int, cpu: string, accel: string,
    disks: seq<Disk>, nics: seq<NIC>, hotplugDisks: int,
    vsockCID: int, vsockFD: int, kvmFDSet: int,
    monitors: seq<Monitor>, fdSets: seq<FDSet>, serialFDSet: int, serial: string,
    cmdline: Cmdline.Cmdline, incoming: string)

  const SLOT_VSOCK := 0x02
  const SLOT_RNG := 0x03
  const SLOT_BALLOON := 0x04
  const SLOT_DISK_BASE := 0x05
  const SLOT_DISK_MAX := 0x0f
  const SLOT_NIC_BASE := 0x10
  const SLOT_NIC_MAX := 0x19
  const SLOT_HOTPLUG := 0x1a
  const SLOT_MEM := 0x1e

  const MAX_DISKS := SLOT_DISK_MAX - SLOT_DISK_BASE + 1
  const MAX_NICS := SLOT_NIC_MAX - SLOT_NIC_BASE + 1
  const MAX_HOTPLUG_DISKS := 256

  // ----- what is refused

  datatype Refusal =
    | NoQemu | NoKernel | NoFirmware | BiosIsAPath | UnknownAccelerator | CpuIsNotAName
    | TooFewCPUs | CPUCeilingTooLow | MemoryCeilingTooLow | TooLittleMemory
    | TooManyDisks | TooManyNICs | HotplugOutOfRange
    | BadCmdline(why: Cmdline.Verdict) | BadMonitor(index: nat) | BadFDSet(index: nat)
    | TwoConsoles | NoSuchConsoleSet | KVMSetWithoutKVM | NoSuchKVMSet
    | VsockFDWithoutVsock | VsockFDTooLow | BadNIC(index: nat) | BadDisk(index: nat)

  datatype Check = Ok | Refused(why: Refusal)

  predicate IsFormat(f: string) { f == "qcow2" || f == "raw" }

  predicate IsCpuName(c: string) {
    forall x | x in c :: x != ',' && x != ' ' && x != '\t' && x != '\n'
  }

  predicate IsHexDigit(c: char) { IsHex(c) || 'A' <= c <= 'F' }

  /** The three spellings of a 48-bit address net.ParseMAC takes: six pairs of hexadecimal
      digits with colons or with dashes between them, or three fours with dots. */
  predicate IsMac48(m: string) {
    (|m| == 17 && (m[2] == ':' || m[2] == '-') &&
     forall i | 0 <= i < 17 :: if i % 3 == 2 then m[i] == m[2] else IsHexDigit(m[i])) ||
    (|m| == 14 && forall i | 0 <= i < 14 :: if i % 5 == 4 then m[i] == '.' else IsHexDigit(m[i]))
  }

  predicate MonitorOk(m: Monitor) {
    (m.socket == "") != (m.fd == 0) && (m.fd != 0 ==> m.fd >= 3)
  }

  predicate NICOk(n: NIC) {
    n.tapFD >= 3 && (n.vhostFD != 0 ==> n.vhostFD >= 3) && IsMac48(n.mac)
  }

  predicate FDSetOk(f: FDSet) {
    |f.fds| > 0 && forall fd | fd in f.fds :: fd.num >= 3
  }

  predicate FDSetsOk(sets: seq<FDSet>) {
    && (forall i | 0 <= i < |sets| :: FDSetOk(sets[i]))
    && (forall i, j | 0 <= i < j < |sets| :: sets[i].id != sets[j].id)
  }

  function SetIds(sets: seq<FDSet>): set<int> {
    set f | f in sets :: f.id
  }

  predicate ImageOk(d: Disk, j: nat, ids: set<int>)
    requires j < |d.chain|
  {
    d.chain[j].fdSet in ids && IsFormat(d.chain[j].format) &&
    (d.chain[j].format == "raw" ==> j == |d.chain| - 1)
  }

  predicate DiskOk(d: Disk, ids: set<int>) {
    && (d.path == "") == (d.chain != [])
    && (if d.chain == [] then IsFormat(d.format) else d.format == "")
    && forall j | 0 <= j < |d.chain| :: ImageOk(d, j, ids)
  }

  predicate SizesOk(s: Spec) {
    && s.bootCPUs >= 1 && (s.maxCPUs != 0 ==> s.maxCPUs >= s.bootCPUs)
    && s.sizeMB >= 1 && (s.maxMB != 0 ==> s.maxMB >= s.sizeMB)
    && |s.disks| <= MAX_DISKS && |s.nics| <= MAX_NICS
    && 0 <= s.hotplugDisks <= MAX_HOTPLUG_DISKS
  }

  predicate NamesOk(s: Spec) {
    && s.qemu != "" && s.kernel != "" && s.firmware != "" && '/' !in s.bios
    && (s.accel == "" || s.accel == "kvm" || s.accel == "tcg") && IsCpuName(s.cpu)
  }

  predicate DescriptorsOk(s: Spec) {
    && !(s.serialFDSet != 0 && s.serial != "")
    && (s.serialFDSet != 0 ==> s.serialFDSet in SetIds(s.fdSets))
    && (s.kvmFDSet != 0 ==> (s.accel == "" || s.accel == "kvm") && s.kvmFDSet in SetIds(s.fdSets))
    && (s.vsockFD != 0 ==> s.vsockCID != 0 && s.vsockFD >= 3)
  }

  /** What an accepted spec keeps to, as one statement about it. */
  predicate Accepts(s: Spec) {
    && NamesOk(s) && SizesOk(s) && Cmdline.Accepts(s.cmdline)
    && (forall i | 0 <= i < |s.monitors| :: MonitorOk(s.monitors[i]))
    && FDSetsOk(s.fdSets) && DescriptorsOk(s)
    && (forall i | 0 <= i < |s.nics| :: NICOk(s.nics[i]))
    && (forall i | 0 <= i < |s.disks| :: DiskOk(s.disks[i], SetIds(s.fdSets)))
  }

  /** What a refusal says of the spec it refuses. */
  predicate Justified(s: Spec, why: Refusal) {
    match why
    case NoQemu => s.qemu == ""
    case NoKernel => s.kernel == ""
    case NoFirmware => s.firmware == ""
    case BiosIsAPath => '/' in s.bios
    case UnknownAccelerator => s.accel !in {"", "kvm", "tcg"}
    case CpuIsNotAName => !IsCpuName(s.cpu)
    case TooFewCPUs => s.bootCPUs < 1
    case CPUCeilingTooLow => s.maxCPUs != 0 && s.maxCPUs < s.bootCPUs
    case MemoryCeilingTooLow => s.maxMB != 0 && s.maxMB < s.sizeMB
    case TooLittleMemory => s.sizeMB < 1
    case TooManyDisks => |s.disks| > MAX_DISKS
    case TooManyNICs => |s.nics| > MAX_NICS
    case HotplugOutOfRange => s.hotplugDisks < 0 || s.hotplugDisks > MAX_HOTPLUG_DISKS
    case BadCmdline(v) => !v.Accepted? && !Cmdline.Accepts(s.cmdline)
    case BadMonitor(i) => i < |s.monitors| && !MonitorOk(s.monitors[i])
    case BadFDSet(i) => i < |s.fdSets| && (!FDSetOk(s.fdSets[i]) || s.fdSets[i].id in SetIds(s.fdSets[..i]))
    case TwoConsoles => s.serialFDSet != 0 && s.serial != ""
    case NoSuchConsoleSet => s.serialFDSet != 0 && s.serialFDSet !in SetIds(s.fdSets)
    case KVMSetWithoutKVM => s.kvmFDSet != 0 && Accel(s) != "kvm"
    case NoSuchKVMSet => s.kvmFDSet != 0 && s.kvmFDSet !in SetIds(s.fdSets)
    case VsockFDWithoutVsock => s.vsockFD != 0 && s.vsockCID == 0
    case VsockFDTooLow => s.vsockFD != 0 && s.vsockFD < 3
    case BadNIC(i) => i < |s.nics| && !NICOk(s.nics[i])
    case BadDisk(i) => i < |s.disks| && !DiskOk(s.disks[i], SetIds(s.fdSets))
  }

  /** Spec.fdSets: the ids of the descriptor sets, filled into a table as they are read, or the
      position of the first that is refused. */
  method FDSetTable(sets: seq<FDSet>) returns (table: map<int, bool>, bad: Option<nat>)
    ensures bad.None? <==> FDSetsOk(sets)
    ensures bad.None? ==> table.Keys == SetIds(sets) && forall id | id in table :: table[id]
    ensures bad.Some? ==> bad.value < |sets| && FDSetsOk(sets[..bad.value])
    ensures bad.Some? ==> !FDSetOk(sets[bad.value]) || sets[bad.value].id in SetIds(sets[..bad.value])
  {
    table := map[];
    for i := 0 to |sets|
      invariant FDSetsOk(sets[..i])
      invariant table.Keys == SetIds(sets[..i]) && forall id | id in table :: table[id]
    {
      var f := sets[i];
      assert sets[..i + 1] == sets[..i] + [f];
      if f.id in table || |f.fds| == 0 {
        assert f.id in table ==> exists j :: 0 <= j < i && sets[j].id == f.id;
        return table, Some(i);
      }
      for k := 0 to |f.fds|
        invariant forall m | 0 <= m < k :: f.fds[m].num >= 3
      {
        if f.fds[k].num < 3 {
          assert f.fds[k] in f.fds;
          return table, Some(i);
        }
      }
      assert f.id !in SetIds(sets[..i]);
      forall j | 0 <= j < i ensures sets[j].id != f.id {
        assert sets[j] in sets[..i];
      }
      table := table[f.id := true];
      assert SetIds(sets[..i + 1]) == SetIds(sets[..i]) + {f.id};
    }
    assert sets[..|sets|] == sets;
    bad := None;
  }

  method CheckMonitor(m: Monitor) returns (ok: bool)
    ensures ok <==> MonitorOk(m)
  {
    if (m.socket == "") == (m.fd == 0) {
      return false;
    }
    if m.fd != 0 && m.fd < 3 {
      return false;
    }
    return true;
  }

  /** Disk.validate, with the table of descriptor sets. */
  method CheckDisk(d: Disk, sets: map<int, bool>) returns (ok: bool)
    ensures ok <==> DiskOk(d, sets.Keys)
  {
    if d.path == "" && |d.chain| == 0 { return false; }
    if d.path != "" && |d.chain| != 0 { return false; }
    if d.path != "" && !IsFormat(d.format) { return false; }
    if |d.chain| != 0 && d.format != "" { return false; }
    for j := 0 to |d.chain|
      invariant forall k | 0 <= k < j :: ImageOk(d, k, sets.Keys)
    {
      var img := d.chain[j];
      assert ImageOk(d, j, sets.Keys) <==> img.fdSet in sets && IsFormat(img.format) &&
                                           !(img.format == "raw" && j != |d.chain| - 1);
      if img.fdSet !in sets { return false; }
      if img.format == "" { return false; }
      if !IsFormat(img.format) { return false; }
      if img.format == "raw" && j != |d.chain| - 1 { return false; }
    }
    return true;
  }

  /** The first switch of Spec.validate. */
  method CheckScalars(s: Spec) returns (r: Check)
    ensures r.Ok? <==> NamesOk(s) && SizesOk(s)
    ensures r.Refused? ==> Justified(s, r.why)
  {
    if s.qemu == "" { return Refused(NoQemu); }
    if s.kernel == "" { return Refused(NoKernel); }
    if s.firmware == "" { return Refused(NoFirmware); }
    if '/' in s.bios { return Refused(BiosIsAPath); }
    if s.accel != "" && s.accel != "kvm" && s.accel != "tcg" { return Refused(UnknownAccelerator); }
    if !IsCpuName(s.cpu) { return Refused(CpuIsNotAName); }
    if s.bootCPUs < 1 { return Refused(TooFewCPUs); }
    if s.maxCPUs != 0 && s.maxCPUs < s.bootCPUs { return Refused(CPUCeilingTooLow); }
    if s.maxMB != 0 && s.maxMB < s.sizeMB { return Refused(MemoryCeilingTooLow); }
    if s.sizeMB < 1 { return Refused(TooLittleMemory); }
    if |s.disks| > MAX_DISKS { return Refused(TooManyDisks); }
    if |s.nics| > MAX_NICS { return Refused(TooManyNICs); }
    if s.hotplugDisks < 0 || s.hotplugDisks > MAX_HOTPLUG_DISKS { return Refused(HotplugOutOfRange); }
    return Ok;
  }

  /** The second switch, over the table of descriptor sets. */
  method CheckDescriptors(s: Spec, sets: map<int, bool>) returns (r: Check)
    requires sets.Keys == SetIds(s.fdSets)
    ensures r.Ok? <==> DescriptorsOk(s)
    ensures r.Refused? ==> Justified(s, r.why)
  {
    if s.serialFDSet != 0 && s.serial != "" { return Refused(TwoConsoles); }
    if s.serialFDSet != 0 && s.serialFDSet !in sets { return Refused(NoSuchConsoleSet); }
    if s.kvmFDSet != 0 && s.accel != "" && s.accel != "kvm" { return Refused(KVMSetWithoutKVM); }
    if s.kvmFDSet != 0 && s.kvmFDSet !in sets { return Refused(NoSuchKVMSet); }
    if s.vsockFD != 0 && s.vsockCID == 0 { return Refused(VsockFDWithoutVsock); }
    if s.vsockFD != 0 && s.vsockFD < 3 { return Refused(VsockFDTooLow); }
    return Ok;
  }

  /** Spec.validate. */
  method Validate(s: Spec) returns (r: Check)
    ensures r.Ok? <==> Accepts(s)
    ensures r.Refused? ==> Justified(s, r.why)
  {
    r := CheckScalars(s);
    if r.Refused? { return; }
    var v := Cmdline.Validate(s.cmdline);
    if !v.Accepted? { return Refused(BadCmdline(v)); }
    for i := 0 to |s.monitors|
      invariant forall j | 0 <= j < i :: MonitorOk(s.monitors[j])
    {
      var ok := CheckMonitor(s.monitors[i]);
      if !ok { return Refused(BadMonitor(i)); }
    }
    var sets, bad := FDSetTable(s.fdSets);
    if bad.Some? { return Refused(BadFDSet(bad.value)); }
    r := CheckDescriptors(s, sets);
    if r.Refused? { return; }
    for i := 0 to |s.nics|
      invariant forall j | 0 <= j < i :: NICOk(s.nics[j])
    {
      if !NICOk(s.nics[i]) { return Refused(BadNIC(i)); }
    }
    for i := 0 to |s.disks|
      invariant forall j | 0 <= j < i :: DiskOk(s.disks[j], SetIds(s.fdSets))
    {
      var ok := CheckDisk(s.disks[i], sets);
      if !ok { return Refused(BadDisk(i)); }
    }
    return Ok;
  }

  // ----- the shape

  const MACHINE_OPTS := "pc-q35-11.1,kernel-irqchip=on,hpet=off,acpi=on,sata=off,smbus=off"

  datatype Shape = Shape(machine: string, accel: string, cpu: string, smp: string, memory: string)

  function Accel(s: Spec): string {
    if s.accel == "" then "kvm" else s.accel
  }

  /** The CPU model the guest is shown, with the default spelt out. */
  function CpuModel(s: Spec): string {
    if s.cpu != "" then s.cpu else if Accel(s) != "kvm" then "max" else "host"
  }

  predicate DerivedFromHost(model: string) { model == "host" || model == "max" }

  function CpuOptions(model: string): string {
    (if DerivedFromHost(model) then "migratable=on" else "enforce=on") + ",-vmx,-svm"
  }

  /** A size, and after it the ceiling when there is one. */
  function WithCeiling(size: int, infix: string, ceiling: Option<string>): string {
    match ceiling
    case None => Itoa(size)
    case Some(text) => Itoa(size) + infix + text
  }

  function SmpArg(bootCPUs: int, maxCPUs: int): string {
    WithCeiling(bootCPUs, ",maxcpus=", if maxCPUs > 0 && maxCPUs != bootCPUs then Some(Itoa(maxCPUs)) else None)
  }

  function MemoryArg(sizeMB: int, maxMB: int): string {
    WithCeiling(sizeMB, ",maxmem=", if maxMB > sizeMB then Some(Itoa(maxMB) + "M") else None)
  }

  function ShapeOf(s: Spec): Shape {
    Shape(MACHINE_OPTS, Accel(s), CpuModel(s) + "," + CpuOptions(CpuModel(s)),
          SmpArg(s.bootCPUs, s.maxCPUs), MemoryArg(s.sizeMB, s.maxMB))
  }

  function Bios(s: Spec): string {
    if s.bios == "" then "qboot.bin" else s.bios
  }

  // ----- what the shape says

  /** What a ceiling comes to: the boot size when no more than that is asked for. */
  function Ceiling(boot: int, ceiling: int): int {
    if ceiling > boot then ceiling else boot
  }

  lemma SmpSays(a: Spec, b: Spec)
    requires SizesOk(a) && SizesOk(b)
    ensures SmpArg(a.bootCPUs, a.maxCPUs) == SmpArg(b.bootCPUs, b.maxCPUs)
       <==> a.bootCPUs == b.bootCPUs && Ceiling(a.bootCPUs, a.maxCPUs) == Ceiling(b.bootCPUs, b.maxCPUs)
  {
    var x := if a.maxCPUs > a.bootCPUs then Some(Itoa(a.maxCPUs)) else None;
    var y := if b.maxCPUs > b.bootCPUs then Some(Itoa(b.maxCPUs)) else None;
    WithCeilingSays(a.bootCPUs, x, b.bootCPUs, y, ",maxcpus=");
    if x == y && x.Some? {
      ItoaInjective(a.maxCPUs, b.maxCPUs);
    }
  }

  lemma MemorySays(a: Spec, b: Spec)
    requires SizesOk(a) && SizesOk(b)
    ensures MemoryArg(a.sizeMB, a.maxMB) == MemoryArg(b.sizeMB, b.maxMB)
       <==> a.sizeMB == b.sizeMB && Ceiling(a.sizeMB, a.maxMB) == Ceiling(b.sizeMB, b.maxMB)
  {
    var x := if a.maxMB > a.sizeMB then Some(Itoa(a.maxMB) + "M") else None;
    var y := if b.maxMB > b.sizeMB then Some(Itoa(b.maxMB) + "M") else None;
    WithCeilingSays(a.sizeMB, x, b.sizeMB, y, ",maxmem=");
    if x == y && x.Some? {
      assert x.value[..|x.value| - 1] == Itoa(a.maxMB) && y.value[..|y.value| - 1] == Itoa(b.maxMB);
      ItoaInjective(a.maxMB, b.maxMB);
    }
  }

  lemma WithCeilingSays(a: int, x: Option<string>, b: int, y: Option<string>, infix: string)
    requires a > 0 && b > 0 && infix != "" && infix[0] == ','
    ensures WithCeiling(a, infix, x) == WithCeiling(b, infix, y) <==> a == b && x == y
  {
    WithCeilingCut(a, x, infix);
    WithCeilingCut(b, y, infix);
    if WithCeiling(a, infix, x) == WithCeiling(b, infix, y) {
      if x.Some? {
        assert (infix[1..] + x.value)[|infix| - 1..] == x.value;
        assert (infix[1..] + y.value)[|infix| - 1..] == y.value;
      }
      ItoaInjective(a, b);
    }
  }

  lemma WithCeilingCut(a: int, x: Option<string>, infix: string)
    requires a > 0 && infix != "" && infix[0] == ','
    ensures Cut(WithCeiling(a, infix, x), ',') ==
            if x.Some? then Some((Itoa(a), infix[1..] + x.value)) else None
  {
    ItoaShape(a);
    if x.Some? {
      CutOf(Itoa(a), ',', infix[1..] + x.value);
      assert WithCeiling(a, infix, x) == Itoa(a) + [','] + (infix[1..] + x.value);
    } else {
      IndexOfAbsent(Itoa(a), ',');
    }
  }

  lemma CpuSays(a: string, b: string)
    requires IsCpuName(a) && IsCpuName(b)
    ensures a + "," + CpuOptions(a) == b + "," + CpuOptions(b) <==> a == b
    ensures Cut(a + "," + CpuOptions(a), ',') == Some((a, CpuOptions(a)))
  {
    CutOf(a, ',', CpuOptions(a));
    CutOf(b, ',', CpuOptions(b));
  }

  // ----- what is accepted, said otherwise

  /** A text of n hexadecimal digits of either case. */
  predicate HexDigits(t: string, n: nat) {
    |t| == n && forall i | 0 <= i < n :: '0' <= t[i] <= '9' || 'a' <= t[i] <= 'f' || 'A' <= t[i] <= 'F'
  }

  /** n groups of w hexadecimal digits, with one character between every two. */
  predicate Groups(m: string, n: nat, w: nat, between: char) {
    if n <= 1 then HexDigits(m, w)
    else |m| > w && HexDigits(m[..w], w) && m[w] == between && Groups(m[w + 1..], n - 1, w, between)
  }

  /** Six pairs with colons or with dashes between them, or three fours with dots. */
  predicate IsAddress(m: string) { Groups(m, 6, 2, ':') || Groups(m, 6, 2, '-') || Groups(m, 3, 4, '.') }

  lemma AMac()
    ensures IsMac48("52:54:00:12:34:56")
  {
  }

  lemma {:induction false} PairsAre(m: string, n: nat, between: char)
    requires n > 0
    ensures Groups(m, n, 2, between) <==>
            |m| == 3 * n - 1 && forall i | 0 <= i < |m| :: if i % 3 == 2 then m[i] == between else IsHexDigit(m[i])
  {
    if n > 1 && |m| > 2 {
      PairsAre(m[3..], n - 1, between);
      assert forall i | 3 <= i < |m| :: m[i] == m[3..][i - 3] && (i - 3) % 3 == i % 3;
      assert forall i | 0 <= i < |m| - 3 :: m[3..][i] == m[i + 3];
      assert m[..2][0] == m[0] && m[..2][1] == m[1];
      assert forall i | 0 <= i < 3 :: i % 3 == i;
    }
  }

  lemma {:induction false} FoursAre(m: string, n: nat, between: char)
    requires n > 0
    ensures Groups(m, n, 4, between) <==>
            |m| == 5 * n - 1 && forall i | 0 <= i < |m| :: if i % 5 == 4 then m[i] == between else IsHexDigit(m[i])
  {
    if n > 1 && |m| > 4 {
      FoursAre(m[5..], n - 1, between);
      assert forall i | 5 <= i < |m| :: m[i] == m[5..][i - 5] && (i - 5) % 5 == i % 5;
      assert forall i | 0 <= i < |m| - 5 :: m[5..][i] == m[i + 5];
      assert m[..4][0] == m[0] && m[..4][1] == m[1] && m[..4][2] == m[2] && m[..4][3] == m[3];
      assert forall i | 0 <= i < 5 :: i % 5 == i;
    }
  }

  lemma MacIs(m: string)
    ensures IsMac48(m) <==> IsAddress(m)
  {
    PairsAre(m, 6, ':');
    PairsAre(m, 6, '-');
    FoursAre(m, 3, '.');
    hide Groups, IsHexDigit;
  }

  /** A disk is one path with its format, or a chain with none of its own: images in sets that were given,
      each in a known format, and none but the last raw. */
  predicate IsWhole(d: Disk, sets: seq<FDSet>) {
    if d.chain == [] then d.path != "" && d.format in ["qcow2", "raw"]
    else
      && d.path == "" && d.format == ""
      && (forall img | img in d.chain :: img.format in ["qcow2", "raw"] && exists f | f in sets :: f.id == img.fdSet)
      && forall img | img in d.chain[..|d.chain| - 1] :: img.format == "qcow2"
  }

  lemma DiskIs(d: Disk, sets: seq<FDSet>)
    ensures DiskOk(d, SetIds(sets)) <==> IsWhole(d, sets)
  {
    forall j | 0 <= j < |d.chain|
      ensures ImageOk(d, j, SetIds(sets)) <==>
              && d.chain[j].format in ["qcow2", "raw"] && (exists f | f in sets :: f.id == d.chain[j].fdSet)
              && (j < |d.chain| - 1 ==> d.chain[j].format == "qcow2")
    {
      assert d.chain[j] in d.chain;
      assert j < |d.chain| - 1 ==> d.chain[j] in d.chain[..|d.chain| - 1];
    }
    hide ImageOk, SetIds;
    if IsWhole(d, sets) {
      forall j | 0 <= j < |d.chain| ensures ImageOk(d, j, SetIds(sets)) {
        assert d.chain[j] in d.chain;
        assert j < |d.chain| - 1 ==> d.chain[..|d.chain| - 1][j] in d.chain[..|d.chain| - 1];
      }
    }
  }

  /** What validate accepts, field by field: what must be there is, a ceiling is no lower than what it is a
      ceiling of, and no more is asked for than the machine has slots and targets for; every descriptor is
      above the three every process has, and every set that is named is given, once and with something in
      it. */
  lemma WhatIsAccepted(s: Spec)
    ensures Accepts(s) <==>
            && s.qemu != "" && s.kernel != "" && s.firmware != "" && '/' !in s.bios
            && s.accel in ["", "kvm", "tcg"] && (forall c | c in s.cpu :: c !in [',', ' ', '\t', '\n'])
            && 1 <= s.bootCPUs && (s.maxCPUs == 0 || s.bootCPUs <= s.maxCPUs)
            && 1 <= s.sizeMB && (s.maxMB == 0 || s.sizeMB <= s.maxMB)
            && |s.disks| <= 11 && |s.nics| <= 10 && 0 <= s.hotplugDisks <= 256
            && Cmdline.Accepts(s.cmdline)
            && (forall m | m in s.monitors :: if m.socket != "" then m.fd == 0 else m.fd >= 3)
            && (forall f | f in s.fdSets :: f.fds != [] && forall fd | fd in f.fds :: fd.num >= 3)
            && (forall i, j | 0 <= i < |s.fdSets| && 0 <= j < |s.fdSets| && s.fdSets[i].id == s.fdSets[j].id :: i == j)
            && (s.serialFDSet == 0 || (s.serial == "" && exists f | f in s.fdSets :: f.id == s.serialFDSet))
            && (s.kvmFDSet == 0 || (s.accel != "tcg" && exists f | f in s.fdSets :: f.id == s.kvmFDSet))
            && (s.vsockFD == 0 || (s.vsockCID != 0 && s.vsockFD >= 3))
            && (forall n | n in s.nics :: n.tapFD >= 3 && (n.vhostFD == 0 || n.vhostFD >= 3) && IsAddress(n.mac))
            && (forall d | d in s.disks :: IsWhole(d, s.fdSets))
  {
    hide *;
    AcceptsIs(s);
    ScalarsSay(s);
    MonitorsSay(s.monitors);
    SetsSay(s.fdSets);
    DescriptorsSay(s);
    NICsSay(s.nics);
    DisksSay(s.disks, s.fdSets);
  }

  lemma AcceptsIs(s: Spec)
    ensures Accepts(s) <==>
            && NamesOk(s) && SizesOk(s) && Cmdline.Accepts(s.cmdline)
            && (forall i | 0 <= i < |s.monitors| :: MonitorOk(s.monitors[i]))
            && FDSetsOk(s.fdSets) && DescriptorsOk(s)
            && (forall i | 0 <= i < |s.nics| :: NICOk(s.nics[i]))
            && (forall i | 0 <= i < |s.disks| :: DiskOk(s.disks[i], SetIds(s.fdSets)))
  {
    hide NamesOk, SizesOk, Cmdline.Accepts, MonitorOk, FDSetsOk, DescriptorsOk, NICOk, DiskOk, SetIds;
  }

  lemma ScalarsSay(s: Spec)
    ensures NamesOk(s) <==>
            && s.qemu != "" && s.kernel != "" && s.firmware != "" && '/' !in s.bios
            && s.accel in ["", "kvm", "tcg"] && (forall c | c in s.cpu :: c !in [',', ' ', '\t', '\n'])
    ensures SizesOk(s) <==>
            && 1 <= s.bootCPUs && (s.maxCPUs == 0 || s.bootCPUs <= s.maxCPUs)
            && 1 <= s.sizeMB && (s.maxMB == 0 || s.sizeMB <= s.maxMB)
            && |s.disks| <= 11 && |s.nics| <= 10 && 0 <= s.hotplugDisks <= 256
  {
  }

  lemma MonitorsSay(ms: seq<Monitor>)
    ensures (forall i | 0 <= i < |ms| :: MonitorOk(ms[i])) <==>
            forall m | m in ms :: if m.socket != "" then m.fd == 0 else m.fd >= 3
  {
  }

  lemma SetsSay(fs: seq<FDSet>)
    ensures FDSetsOk(fs) <==>
            && (forall f | f in fs :: f.fds != [] && forall fd | fd in f.fds :: fd.num >= 3)
            && (forall i, j | 0 <= i < |fs| && 0 <= j < |fs| && fs[i].id == fs[j].id :: i == j)
  {
    if FDSetsOk(fs) {
      forall i, j | 0 <= i < |fs| && 0 <= j < |fs| && fs[i].id == fs[j].id ensures i == j {
        assert !(i < j) && !(j < i);
      }
    }
  }

  lemma DescriptorsSay(s: Spec)
    ensures (s.accel in ["", "kvm", "tcg"]) && DescriptorsOk(s) <==>
            && s.accel in ["", "kvm", "tcg"]
            && (s.serialFDSet == 0 || (s.serial == "" && exists f | f in s.fdSets :: f.id == s.serialFDSet))
            && (s.kvmFDSet == 0 || (s.accel != "tcg" && exists f | f in s.fdSets :: f.id == s.kvmFDSet))
            && (s.vsockFD == 0 || (s.vsockCID != 0 && s.vsockFD >= 3))
  {
  }

  lemma NICsSay(ns: seq<NIC>)
    ensures (forall i | 0 <= i < |ns| :: NICOk(ns[i])) <==>
            forall n | n in ns :: n.tapFD >= 3 && (n.vhostFD == 0 || n.vhostFD >= 3) && IsAddress(n.mac)
  {
    forall n | n in ns ensures IsMac48(n.mac) <==> IsAddress(n.mac) {
      MacIs(n.mac);
    }
    hide IsMac48, IsAddress;
  }

  lemma DisksSay(ds: seq<Disk>, sets: seq<FDSet>)
    ensures (forall i | 0 <= i < |ds| :: DiskOk(ds[i], SetIds(sets))) <==> forall d | d in ds :: IsWhole(d, sets)
  {
    forall d ensures DiskOk(d, SetIds(sets)) <==> IsWhole(d, sets) {
      DiskIs(d, sets);
    }
    hide DiskOk, IsWhole, SetIds;
  }
}
