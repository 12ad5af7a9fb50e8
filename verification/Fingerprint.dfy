/** What a checkpoint is held to: the bytes a fingerprint hashes, and that two machines have the
    same bytes exactly when they are the same hardware. */
module Fingerprint {
  import opened Text
  import opened QemuOptions
  import opened Argv
  import opened Machine
  import opened Args
  import opened Contract
  import opened Records
  import Readback

  /** What a guest can tell of its machine, besides its disks. */
  datatype Hardware = Hardware(
    biosSize: nat, accel: string, cpu: string, bootCPUs: int, cpuCeiling: int, sizeMB: int, memoryCeiling: int,
    vsock: bool, hotplug: bool, serial: bool, mtus: seq<nat>, hostCPU: Option<string>)

  function Mtu(n: NIC): nat { if n.mtu > 0 then n.mtu else 0 }

  function Mtus(ns: seq<NIC>): (r: seq<nat>)
    ensures |r| == |ns| && forall i | 0 <= i < |ns| :: r[i] == Mtu(ns[i])
  {
    if ns == [] then [] else [Mtu(ns[0])] + Mtus(ns[1..])
  }

  /** The machine an accepted spec describes on a host with this BIOS and this CPU. The guest is shown
      the host's CPU when it asks for it, for all its emulator has, or for nothing. */
  function HardwareOf(s: Spec, biosSize: nat, hostCPU: string): Hardware {
    Hardware(biosSize, if s.accel == "tcg" then "tcg" else "kvm",
             if s.cpu != "" then s.cpu else if s.accel == "tcg" then "max" else "host",
             s.bootCPUs, Max(s.bootCPUs, s.maxCPUs), s.sizeMB, Max(s.sizeMB, s.maxMB),
             s.vsockCID != 0, s.hotplugDisks > 0, s.serial != "" || s.serialFDSet != 0, Mtus(s.nics),
             if s.cpu in ["", "host", "max"] then Some(hostCPU) else None)
  }

  lemma HardwareIs(s: Spec, biosSize: nat, hostCPU: string)
    requires Accepts(s)
    ensures HardwareOf(s, biosSize, hostCPU) ==
            Hardware(biosSize, Accel(s), CpuModel(s), s.bootCPUs, Ceiling(s.bootCPUs, s.maxCPUs),
                     s.sizeMB, Ceiling(s.sizeMB, s.maxMB), s.vsockCID != 0, s.hotplugDisks > 0, HasSerial(s),
                     Mtus(s.nics), if DerivedFromHost(CpuModel(s)) then Some(hostCPU) else None)
  {
    hide Mtus;
    assert NamesOk(s);
  }

  // ----- the stream

  function ShapeRecords(s: Spec, biosSize: nat): seq<Record> {
    var shape := ShapeOf(s);
    [Record("bios-size", Itoa(biosSize)), Record("machine", shape.machine), Record("accel", shape.accel),
     Record("cpu", shape.cpu), Record("smp", shape.smp), Record("memory", shape.memory)]
  }

  function ContractRecords(lines: seq<string>): (r: seq<Record>)
    ensures |r| == |lines| && forall i | 0 <= i < |lines| :: r[i] == Record("contract", lines[i])
  {
    if lines == [] then [] else [Record("contract", lines[0])] + ContractRecords(lines[1..])
  }

  function ContractLines(s: Spec): seq<string> {
    Scan(RenderedAll(ContractItems(s))) + SerialLines(s)
  }

  /** The model fingerprint looks at: what the -cpu string has before its first comma. */
  function CutModel(s: Spec): string {
    match Cut(ShapeOf(s).cpu, ',') case None => ShapeOf(s).cpu case Some((before, _)) => before
  }

  function HostRecords(s: Spec, hostCPU: string): seq<Record> {
    if DerivedFromHost(CutModel(s)) then [Record("host-cpu", hostCPU)] else []
  }

  function RecordsOf(s: Spec, biosSize: nat, hostCPU: string): seq<Record> {
    ShapeRecords(s, biosSize) + ContractRecords(ContractLines(s)) + HostRecords(s, hostCPU)
  }

  /** The bytes hashed. */
  function Hashed(s: Spec, biosSize: nat, hostCPU: string): string {
    EncodeAll(RecordsOf(s, biosSize, hostCPU))
  }

  /** Whether the guest is shown the host's CPU, of any spec: what counts is the model before the first
      comma, and no model is one of those. */
  predicate ShowsHost(s: Spec) { s.cpu == "" || s.cpu[..IndexOf(s.cpu, ',')] in ["host", "max"] }

  datatype Outcome = Bytes(hashed: string) | NoBios | NoHostCPU

  /** Spec.fingerprint up to the hash, with the BIOS's size and the host's CPU as they were read
      or failed to be read. The host's CPU is asked for only when the guest is shown it. */
  method Fingerprint(s: Spec, biosSize: Option<nat>, hostCPU: Option<string>) returns (r: Outcome)
    ensures r.NoBios? <==> biosSize.None?
    ensures r.NoHostCPU? <==> biosSize.Some? && hostCPU.None? && ShowsHost(s)
    ensures r.Bytes? ==> r.hashed == Hashed(s, biosSize.value, if hostCPU.Some? then hostCPU.value else "")
  {
    hide *;
    if biosSize.None? {
      return NoBios;
    }
    ghost var host := if hostCPU.Some? then hostCPU.value else "";
    var shape := ShapeOf(s);
    var h := WriteShape(s, shape, biosSize.value);
    var lines := Contract.Contract(s);
    ghost var done := ShapeRecords(s, biosSize.value);
    NoContractRecords();
    assert done + [] == done;
    for i := 0 to |lines|
      invariant h == EncodeAll(done)
      invariant done == ShapeRecords(s, biosSize.value) + ContractRecords(lines[..i])
    {
      ContractRecordsAppend(lines[..i], lines[i]);
      assert lines[..i + 1] == lines[..i] + [lines[i]];
      h := Write(h, done, "contract", lines[i]);
      done := done + [Record("contract", lines[i])];
    }
    assert lines[..|lines|] == lines;
    CutModelIs(s);
    ShownIs(s);
    var model := match Cut(shape.cpu, ',') case None => shape.cpu case Some((before, _)) => before;
    if DerivedFromHost(model) {
      if hostCPU.None? {
        return NoHostCPU;
      }
      h := Write(h, done, "host-cpu", hostCPU.value);
      done := done + [Record("host-cpu", hostCPU.value)];
    }
    HashedIs(s, biosSize.value, host, lines, done);
    return Bytes(h);
  }

  method WriteShape(s: Spec, shape: Shape, biosSize: nat) returns (h: string)
    requires shape == ShapeOf(s)
    ensures h == EncodeAll(ShapeRecords(s, biosSize))
  {
    hide ShapeOf, EncodeAll, Itoa;
    h := "";
    ghost var done: seq<Record> := [];
    EncodeNothing();
    h := Write(h, done, "bios-size", Itoa(biosSize));
    done := done + [Record("bios-size", Itoa(biosSize))];
    h := Write(h, done, "machine", shape.machine);
    done := done + [Record("machine", shape.machine)];
    h := Write(h, done, "accel", shape.accel);
    done := done + [Record("accel", shape.accel)];
    h := Write(h, done, "cpu", shape.cpu);
    done := done + [Record("cpu", shape.cpu)];
    h := Write(h, done, "smp", shape.smp);
    done := done + [Record("smp", shape.smp)];
    h := Write(h, done, "memory", shape.memory);
    done := done + [Record("memory", shape.memory)];
    assert done == ShapeRecords(s, biosSize);
  }

  /** write: one record more. */
  method Write(h: string, ghost done: seq<Record>, key: string, value: string) returns (out: string)
    requires h == EncodeAll(done)
    ensures out == EncodeAll(done + [Record(key, value)])
  {
    EncodeAppend(done, Record(key, value));
    out := h + (key + "=" + Itoa(|value|) + ":" + value + "\n");
  }

  lemma EncodeNothing()
    ensures EncodeAll([]) == ""
  {
  }

  lemma HashedIs(s: Spec, biosSize: nat, hostCPU: string, lines: seq<string>, done: seq<Record>)
    requires lines == Scan(RenderedAll(ContractItems(s))) + SerialLines(s)
    requires done == ShapeRecords(s, biosSize) + ContractRecords(lines) +
                     (if DerivedFromHost(CutModel(s)) then [Record("host-cpu", hostCPU)] else [])
    ensures EncodeAll(done) == Hashed(s, biosSize, hostCPU)
  {
    hide Scan, RenderedAll, ContractItems, SerialLines, ShapeRecords, ContractRecords, CutModel, EncodeAll;
  }

  lemma NoContractRecords()
    ensures ContractRecords([]) == []
  {
  }

  lemma ContractRecordsAppend(lines: seq<string>, line: string)
    ensures ContractRecords(lines + [line]) == ContractRecords(lines) + [Record("contract", line)]
  {
  }

  lemma CutModelIs(s: Spec)
    ensures CutModel(s) == match Cut(ShapeOf(s).cpu, ',') case None => ShapeOf(s).cpu case Some((before, _)) => before
  {
    hide Cut, ShapeOf;
  }

  lemma ShownIs(s: Spec)
    ensures ShowsHost(s) <==> DerivedFromHost(CutModel(s))
  {
    hide CpuOptions;
    CutAtComma(CpuModel(s), CpuOptions(CpuModel(s)));
    if s.cpu == "" {
      IndexOfAbsent(CpuModel(s), ',');
    }
  }

  lemma CutAtComma(model: string, options: string)
    ensures Cut(model + "," + options, ',').Some?
    ensures Cut(model + "," + options, ',').value.0 == model[..IndexOf(model, ',')]
  {
    var i, rest := IndexOf(model, ','), "," + options;
    hide Cut, IndexOf;
    if i < |model| {
      FirstComma(model, i, rest);
      CutOf(model[..i], ',', model[i + 1..] + rest);
      assert model + "," + options == model + rest;
    } else {
      CutOf(model, ',', options);
    }
  }

  lemma FirstComma(model: string, i: nat, rest: string)
    requires i < |model| && model[i] == ','
    ensures model + rest == model[..i] + [','] + (model[i + 1..] + rest)
  {
  }

  /** Of an accepted spec that is the model itself. */
  lemma CpuModelIsCut(s: Spec)
    requires IsCpuName(s.cpu)
    ensures CutModel(s) == CpuModel(s)
  {
    hide CpuOptions;
    CpuSays(CpuModel(s), CpuModel(s));
  }

  // ----- the contract's lines, one by one

  lemma {:induction false} KeepOptsConcat(a: seq<Opt>, b: seq<Opt>)
    ensures KeepOpts(a + b) == KeepOpts(a) + KeepOpts(b)
  {
    hide OptIsVms;
    if a == [] {
      assert a + b == b;
    } else {
      assert (a + b)[1..] == a[1..] + b;
      KeepOptsConcat(a[1..], b);
    }
  }

  predicate NoneVms(os: seq<Opt>) { forall i | 0 <= i < |os| :: !OptIsVms(os[i]) }

  lemma {:induction false} KeepOptsAll(os: seq<Opt>)
    requires NoneVms(os)
    ensures KeepOpts(os) == os
  {
    hide OptIsVms;
    if os != [] {
      KeepOptsAll(os[1..]);
    }
  }

  const MODERN_OPT := Set("disable-legacy", "on")

  function SlotOpt(n: nat): Opt { Set("addr", "0x" + Hex(n)) }

  /** A line of the contract by the fields that are in it. */
  function Line(driver: string, kept: seq<Opt>): string {
    "device " + Join([driver] + PrintedAll(kept), ",")
  }

  function VsockLine(): string { Line("vhost-vsock-pci", [MODERN_OPT, SlotOpt(SLOT_VSOCK)]) }

  function ScsiLine(): string { Line("virtio-scsi-pci", [MODERN_OPT, SlotOpt(SLOT_HOTPLUG)]) }

  function MemLine(): string {
    Line("virtio-mem-pci", [Set("requested-size", "0"), MODERN_OPT, SlotOpt(SLOT_MEM)])
  }

  function NetLine(i: nat, mtu: nat): string {
    Line("virtio-net-pci", [Set("romfile", ""), MODERN_OPT, SlotOpt(SLOT_NIC_BASE + i)] +
                           (if mtu > 0 then [Set("host_mtu", Itoa(mtu))] else []))
  }

  function NetLines(mtus: seq<nat>, n: nat): seq<string>
    requires n <= |mtus|
  {
    if n == 0 then [] else NetLines(mtus, n - 1) + [NetLine(n - 1, mtus[n - 1])]
  }

  lemma LineOfDevice(driver: string, os: seq<Opt>)
    ensures DeviceLine([Flag(driver)] + os) == Line(driver, KeepOpts(os))
  {
    assert ([Flag(driver)] + os)[1..] == os;
    PrintedConcat([Flag(driver)], KeepOpts(os));
  }

  lemma ModernStays()
    ensures !OptIsVms(MODERN_OPT) && !OptIsVms(Set("requested-size", "0")) && !OptIsVms(Set("romfile", ""))
    ensures forall v :: !OptIsVms(Set("addr", v)) && !OptIsVms(Set("host_mtu", v))
  {
  }

  lemma VmsGo()
    ensures forall v :: OptIsVms(Set("guest-cid", v)) && OptIsVms(Set("vhostfd", v)) && OptIsVms(Set("id", v))
    ensures forall v :: OptIsVms(Set("netdev", v)) && OptIsVms(Set("memdev", v)) && OptIsVms(Set("mac", v))
  {
  }

  lemma VsockKept(s: Spec)
    ensures LineOf(MeantBy(Listed("-device", VsockProps(s)))) == [VsockLine()]
  {
    VsockMeant(s);
    hide OptIsVms, Line, DeviceLine, Hex, Itoa, MODERN_OPT, SlotOpt, VsockProps, KeepOpts, MeantAll;
    ModernStays();
    VmsGo();
    var cid, fd := Set("guest-cid", Itoa(s.vsockCID)), if s.vsockFD != 0 then [Set("vhostfd", Itoa(s.vsockFD))] else [];
    var kept := [MODERN_OPT, SlotOpt(SLOT_VSOCK)];
    assert NoneVms(kept) by { SlotStays(SLOT_VSOCK); }
    EndsGo([cid], kept, fd);
    DeviceHasLine(VsockProps(s), "vhost-vsock-pci", [cid] + kept + fd, kept);
  }

  predicate AllVms(os: seq<Opt>) { forall i | 0 <= i < |os| :: OptIsVms(os[i]) }

  lemma SlotStays(n: nat)
    ensures !OptIsVms(SlotOpt(n))
  {
    hide Hex;
  }

  lemma {:induction false} KeepOptsGone(os: seq<Opt>)
    requires AllVms(os)
    ensures KeepOpts(os) == []
  {
    hide OptIsVms;
    if os != [] {
      KeepOptsGone(os[1..]);
    }
  }

  /** Of properties between some of the VM's own, those between stay. */
  lemma EndsGo(before: seq<Opt>, kept: seq<Opt>, after: seq<Opt>)
    requires AllVms(before) && NoneVms(kept) && AllVms(after)
    ensures KeepOpts(before + kept + after) == kept
  {
    hide OptIsVms, KeepOpts;
    KeepOptsConcat(before + kept, after);
    KeepOptsConcat(before, kept);
    KeepOptsGone(before);
    KeepOptsGone(after);
    KeepOptsAll(kept);
  }

  lemma DeviceHasLine(ps: seq<Prop>, driver: string, os: seq<Opt>, kept: seq<Opt>)
    requires MeantAll(ps) == [Flag(driver)] + os && KeepOpts(os) == kept && driver != "virtio-blk-pci"
    ensures LineOf(MeantBy(Listed("-device", ps))) == [Line(driver, kept)]
  {
    hide MeantAll, KeepOpts, DeviceLine, Line;
    LineOfDevice(driver, os);
  }

  lemma VsockMeant(s: Spec)
    ensures MeantAll(VsockProps(s)) ==
            [Flag("vhost-vsock-pci")] +
            ([Set("guest-cid", Itoa(s.vsockCID))] + [MODERN_OPT, SlotOpt(SLOT_VSOCK)] +
             (if s.vsockFD != 0 then [Set("vhostfd", Itoa(s.vsockFD))] else []))
  {
    hide Hex, Itoa;
  }

  lemma ScsiKept()
    ensures LineOf(MeantBy(Listed("-device", ScsiProps()))) == [ScsiLine()]
  {
    ScsiMeant();
    hide OptIsVms, Line, DeviceLine, Hex, MODERN_OPT, SlotOpt, ScsiProps, KeepOpts, MeantAll;
    ModernStays();
    VmsGo();
    var id, kept := [Set("id", "scsi0")], [MODERN_OPT, SlotOpt(SLOT_HOTPLUG)];
    assert NoneVms(kept) by { SlotStays(SLOT_HOTPLUG); }
    EndsGo(id, kept, []);
    assert id + kept + [] == id + kept;
    DeviceHasLine(ScsiProps(), "virtio-scsi-pci", id + kept, kept);
  }

  lemma ScsiMeant()
    ensures MeantAll(ScsiProps()) ==
            [Flag("virtio-scsi-pci")] + ([Set("id", "scsi0")] + [MODERN_OPT, SlotOpt(SLOT_HOTPLUG)])
  {
    hide Hex;
  }

  lemma MemKept()
    ensures LineOf(MeantBy(Listed("-device", VirtioMemProps()))) == [MemLine()]
  {
    MemMeant();
    hide OptIsVms, Line, DeviceLine, Hex, MODERN_OPT, SlotOpt, VirtioMemProps, KeepOpts, MeantAll;
    ModernStays();
    VmsGo();
    var own := [Set("id", "vmem0"), Set("memdev", "mem.growth")];
    var kept := [Set("requested-size", "0"), MODERN_OPT, SlotOpt(SLOT_MEM)];
    assert NoneVms(kept) by { SlotStays(SLOT_MEM); }
    EndsGo(own, kept, []);
    assert own + kept + [] == own + kept;
    DeviceHasLine(VirtioMemProps(), "virtio-mem-pci", own + kept, kept);
  }

  lemma MemMeant()
    ensures MeantAll(VirtioMemProps()) ==
            [Flag("virtio-mem-pci")] +
            ([Set("id", "vmem0"), Set("memdev", "mem.growth")] +
             [Set("requested-size", "0"), MODERN_OPT, SlotOpt(SLOT_MEM)])
  {
    hide Hex;
  }

  lemma NetKept(n: NIC, i: nat)
    ensures LineOf(MeantBy(Listed("-device", NetProps(n, i)))) == [NetLine(i, Mtu(n))]
    ensures LineOf(MeantBy(Listed("-netdev", NetdevProps(n, i)))) == []
  {
    NetMeant(n, i);
    hide OptIsVms, Line, DeviceLine, Hex, Itoa, MODERN_OPT, SlotOpt, NetName, NetProps, NetdevProps, KeepOpts, MeantAll;
    ModernStays();
    VmsGo();
    var own := [Set("netdev", NetName(i)), Set("mac", n.mac)];
    var kept := [Set("romfile", ""), MODERN_OPT, SlotOpt(SLOT_NIC_BASE + i)] +
                (if n.mtu > 0 then [Set("host_mtu", Itoa(n.mtu))] else []);
    assert NoneVms(kept) by { SlotStays(SLOT_NIC_BASE + i); }
    EndsGo(own, kept, []);
    assert own + kept + [] == own + kept;
    DeviceHasLine(NetProps(n, i), "virtio-net-pci", own + kept, kept);
  }

  lemma NetMeant(n: NIC, i: nat)
    ensures MeantAll(NetProps(n, i)) ==
            [Flag("virtio-net-pci")] +
            ([Set("netdev", NetName(i)), Set("mac", n.mac)] +
             ([Set("romfile", ""), MODERN_OPT, SlotOpt(SLOT_NIC_BASE + i)] +
              (if n.mtu > 0 then [Set("host_mtu", Itoa(n.mtu))] else [])))
  {
    hide Hex, Itoa, NetName;
  }

  // ----- the contract as a list

  function FixedLines(): seq<string> { LinesOf(CHIPSET) + LinesOf(FixedDeviceItems()) }

  /** The lines that depend on the machine. */
  function OwnLines(vsock: bool, growth: bool, hotplug: bool, mtus: seq<nat>, serial: bool): seq<string> {
    (if vsock then [VsockLine()] else []) + (if growth then [MemLine()] else []) +
    (if hotplug then [ScsiLine()] else []) + NetLines(mtus, |mtus|) + (if serial then [SERIAL_LINE] else [])
  }

  lemma OptionalLines(s: Spec)
    ensures LinesOf(VsockItems(s)) == if s.vsockCID != 0 then [VsockLine()] else []
    ensures LinesOf(GrowthItems(s)) == if s.maxMB > s.sizeMB then [MemLine()] else []
    ensures LinesOf(HotplugItems(s)) == if s.hotplugDisks > 0 then [ScsiLine()] else []
  {
    hide VsockProps, VirtioMemProps, ScsiProps, GrowthProps, LineOf, LinesOf, VsockLine, MemLine, ScsiLine, MeantBy;
    VsockKept(s);
    MemKept();
    ScsiKept();
    LinesOne(Listed("-device", VsockProps(s)));
    LinesOne(Listed("-device", ScsiProps()));
    LinesOne(Listed("-device", VirtioMemProps()));
    LinesOne(Listed("-object", GrowthProps(s)));
    ObjectHasNoLine(GrowthProps(s));
    LinesConcat([Listed("-object", GrowthProps(s))], [Listed("-device", VirtioMemProps())]);
    assert [Listed("-object", GrowthProps(s))] + [Listed("-device", VirtioMemProps())]
        == [Listed("-object", GrowthProps(s)), Listed("-device", VirtioMemProps())];
    LinesNone([]);
  }

  lemma ObjectHasNoLine(ps: seq<Prop>)
    ensures LineOf(MeantBy(Listed("-object", ps))) == []
  {
  }

  lemma {:induction false} NICsLines(ns: seq<NIC>, n: nat)
    requires n <= |ns|
    ensures LinesOf(NICsItems(ns, n)) == NetLines(Mtus(ns), n)
  {
    hide NetProps, NetdevProps, LineOf, LinesOf, NetLine, MeantBy;
    if n == 0 {
      LinesNone([]);
    } else {
      var netdev := Listed("-netdev", NetdevProps(ns[n - 1], n - 1));
      var dev := Listed("-device", NetProps(ns[n - 1], n - 1));
      NICsLines(ns, n - 1);
      NetKept(ns[n - 1], n - 1);
      LinesConcat(NICsItems(ns, n - 1), [netdev, dev]);
      LinesConcat([netdev], [dev]);
      assert [netdev] + [dev] == [netdev, dev];
      LinesOne(netdev);
      LinesOne(dev);
    }
  }

  lemma ContractIs(s: Spec)
    requires Accepts(s)
    ensures ContractLines(s) ==
            FixedLines() + OwnLines(s.vsockCID != 0, s.maxMB > s.sizeMB, s.hotplugDisks > 0, Mtus(s.nics), HasSerial(s))
  {
    hide LinesOf, Scan, RenderedAll, VsockLine, MemLine, ScsiLine, NetLines, NICsItems, FixedDeviceItems, VsockItems,
         GrowthItems, HotplugItems, ContractItems;
    ContractIsItsLines(s);
    LinesConcat(FixedDeviceItems(), VsockItems(s));
    LinesConcat(FixedDeviceItems() + VsockItems(s), GrowthItems(s));
    LinesConcat(FixedDeviceItems() + VsockItems(s) + GrowthItems(s), HotplugItems(s));
    OptionalLines(s);
    NICsLines(s.nics, |s.nics|);
    hide Accepts, Mtus, SERIAL_LINE, CHIPSET;
    Regroup(LinesOf(CHIPSET), LinesOf(FixedDeviceItems()), LinesOf(VsockItems(s)), LinesOf(GrowthItems(s)),
            LinesOf(HotplugItems(s)), LinesOf(NICsItems(s.nics, |s.nics|)), SerialLines(s));
  }

  lemma Regroup(c: seq<string>, f: seq<string>, v: seq<string>, m: seq<string>, h: seq<string>, n: seq<string>,
      s: seq<string>)
    ensures c + (f + v + m + h) + n + s == (c + f) + (v + m + h + n + s)
  {
  }

  lemma ThreeParts<T>(a: seq<T>, b: seq<T>, c: seq<T>, a': seq<T>, b': seq<T>, c': seq<T>)
    requires a + b + c == a' + b' + c' && |a| == |a'|
    ensures a == a'
    ensures |c| == |c'| ==> b == b' && c == c'
  {
    var x, y := a + b + c, a' + b' + c';
    assert x[..|a|] == a && y[..|a|] == a';
    if |c| == |c'| {
      assert x[|a|..|a| + |b|] == b && y[|a|..|a| + |b|] == b';
      assert x[|a| + |b|..] == c && y[|a| + |b|..] == c';
    }
  }

  // ----- no two lines are alike

  lemma PrintedIsClean(o: Opt)
    requires o.Set? && NoComma(o.key) && NoComma(o.value)
    ensures ',' !in Printed(o)
  {
  }

  predicate KeptIsClean(kept: seq<Opt>) {
    forall i | 0 <= i < |kept| :: kept[i].Set? && NoComma(kept[i].key) && NoComma(kept[i].value)
  }

  lemma LineSays(d: string, kept: seq<Opt>, d': string, kept': seq<Opt>)
    requires ',' !in d && ',' !in d' && KeptIsClean(kept) && KeptIsClean(kept')
    requires Line(d, kept) == Line(d', kept')
    ensures d == d' && PrintedAll(kept) == PrintedAll(kept')
  {
    hide Printed;
    var a, b := [d] + PrintedAll(kept), [d'] + PrintedAll(kept');
    forall i | 0 <= i < |kept| ensures ',' !in PrintedAll(kept)[i] {
      PrintedIsClean(kept[i]);
    }
    forall i | 0 <= i < |kept'| ensures ',' !in PrintedAll(kept')[i] {
      PrintedIsClean(kept'[i]);
    }
    assert Line(d, kept)[7..] == Join(a, ",") && Line(d', kept')[7..] == Join(b, ",");
    JoinInjective(a, b, ',');
    assert a[0] == b[0] && a[1..] == b[1..];
  }

  lemma OptsClean(i: nat, mtu: nat)
    ensures KeptIsClean([MODERN_OPT, SlotOpt(i)])
    ensures KeptIsClean([Set("requested-size", "0"), MODERN_OPT, SlotOpt(i)])
    ensures KeptIsClean([Set("romfile", ""), MODERN_OPT, SlotOpt(i)] +
                        (if mtu > 0 then [Set("host_mtu", Itoa(mtu))] else []))
  {
    hide Hex, Itoa;
    Readback.SlotClean(i);
    Readback.IntClean(mtu);
  }

  lemma DriversDiffer()
    ensures "vhost-vsock-pci" != "virtio-mem-pci" && "vhost-vsock-pci" != "virtio-scsi-pci"
    ensures "vhost-vsock-pci" != "virtio-net-pci" && "virtio-scsi-pci" != "virtio-mem-pci"
    ensures "virtio-scsi-pci" != "virtio-net-pci"
    ensures ',' !in "vhost-vsock-pci" && ',' !in "virtio-scsi-pci" && ',' !in "virtio-mem-pci" &&
              ',' !in "virtio-net-pci"
  {
    assert "vhost-vsock-pci"[1] != "virtio-scsi-pci"[1];
  }

  lemma LinesDiffer(i: nat, mtu: nat)
    ensures VsockLine() !in [MemLine(), ScsiLine(), NetLine(i, mtu), SERIAL_LINE]
    ensures ScsiLine() !in [MemLine(), NetLine(i, mtu), SERIAL_LINE]
    ensures SERIAL_LINE !in [MemLine(), NetLine(i, mtu)]
  {
    DriversDiffer();
    OptsClean(SLOT_VSOCK, 0);
    OptsClean(SLOT_HOTPLUG, 0);
    OptsClean(SLOT_MEM, 0);
    OptsClean(SLOT_NIC_BASE + i, mtu);
    SerialDiffers();
    hide Line, SlotOpt, MODERN_OPT, SERIAL_LINE, KeptIsClean;
    var v, c, m := [MODERN_OPT, SlotOpt(SLOT_VSOCK)], [MODERN_OPT, SlotOpt(SLOT_HOTPLUG)],
      [Set("requested-size", "0"), MODERN_OPT, SlotOpt(SLOT_MEM)];
    var n := [Set("romfile", ""), MODERN_OPT, SlotOpt(SLOT_NIC_BASE + i)] +
             (if mtu > 0 then [Set("host_mtu", Itoa(mtu))] else []);
    TwoLinesDiffer("vhost-vsock-pci", v, "virtio-mem-pci", m);
    TwoLinesDiffer("vhost-vsock-pci", v, "virtio-scsi-pci", c);
    TwoLinesDiffer("vhost-vsock-pci", v, "virtio-net-pci", n);
    TwoLinesDiffer("virtio-scsi-pci", c, "virtio-mem-pci", m);
    TwoLinesDiffer("virtio-scsi-pci", c, "virtio-net-pci", n);
  }

  lemma TwoLinesDiffer(d: string, kept: seq<Opt>, d': string, kept': seq<Opt>)
    requires ',' !in d && ',' !in d' && KeptIsClean(kept) && KeptIsClean(kept') && d != d'
    ensures Line(d, kept) != Line(d', kept')
  {
    if Line(d, kept) == Line(d', kept') {
      LineSays(d, kept, d', kept');
    }
  }

  lemma SerialDiffers()
    ensures forall d, kept :: Line(d, kept) != SERIAL_LINE
  {
    forall d, kept ensures Line(d, kept) != SERIAL_LINE {
      assert Line(d, kept)[0] == 'd' && SERIAL_LINE[0] == 's';
    }
  }

  lemma NetLineSays(i: nat, m: nat, m': nat)
    requires NetLine(i, m) == NetLine(i, m')
    ensures m == m'
  {
    hide Line, Hex, Itoa;
    OptsClean(SLOT_NIC_BASE + i, m);
    OptsClean(SLOT_NIC_BASE + i, m');
    DriversDiffer();
    var base := [Set("romfile", ""), MODERN_OPT, SlotOpt(SLOT_NIC_BASE + i)];
    var a := base + (if m > 0 then [Set("host_mtu", Itoa(m))] else []);
    var b := base + (if m' > 0 then [Set("host_mtu", Itoa(m'))] else []);
    LineSays("virtio-net-pci", a, "virtio-net-pci", b);
    assert |PrintedAll(a)| == |PrintedAll(b)|;
    if m > 0 {
      assert PrintedAll(a)[3] == PrintedAll(b)[3];
      assert Printed(a[3])[9..] == Itoa(m) && Printed(b[3])[9..] == Itoa(m');
      ItoaInjective(m, m');
    }
  }

  lemma {:induction false} NetLinesSay(a: seq<nat>, b: seq<nat>, n: nat)
    requires n <= |a| && n <= |b| && NetLines(a, n) == NetLines(b, n)
    ensures a[..n] == b[..n]
  {
    hide NetLine;
    if n > 0 {
      NetLinesLength(a, n - 1);
      NetLinesLength(b, n - 1);
      assert NetLines(a, n)[..n - 1] == NetLines(a, n - 1) && NetLines(b, n)[..n - 1] == NetLines(b, n - 1);
      assert NetLines(a, n)[n - 1] == NetLine(n - 1, a[n - 1]) && NetLines(b, n)[n - 1] == NetLine(n - 1, b[n - 1]);
      NetLinesSay(a, b, n - 1);
      NetLineSays(n - 1, a[n - 1], b[n - 1]);
      assert a[..n] == a[..n - 1] + [a[n - 1]] && b[..n] == b[..n - 1] + [b[n - 1]];
    }
  }

  lemma {:induction false} NetLinesLength(a: seq<nat>, n: nat)
    requires n <= |a|
    ensures |NetLines(a, n)| == n
    ensures forall x | x in NetLines(a, n) :: exists i, m: nat :: x == NetLine(i, m)
  {
    hide NetLine;
    if n > 0 {
      NetLinesLength(a, n - 1);
    }
  }

  lemma OwnLinesHold(vsock: bool, growth: bool, hotplug: bool, mtus: seq<nat>, serial: bool)
    ensures var own := OwnLines(vsock, growth, hotplug, mtus, serial);
            && (VsockLine() in own <==> vsock) && (ScsiLine() in own <==> hotplug) && (SERIAL_LINE in own <==> serial)
  {
    hide VsockLine, ScsiLine, MemLine, NetLine, SERIAL_LINE, NetLines;
    LinesDiffer(0, 0);
    NetLinesLength(mtus, |mtus|);
    forall x | x in NetLines(mtus, |mtus|) ensures x != VsockLine() && x != ScsiLine() && x != SERIAL_LINE {
      var i, m: nat :| x == NetLine(i, m);
      LinesDiffer(i, m);
    }
  }

  lemma OwnLinesSay(v: bool, growth: bool, h: bool, mtus: seq<nat>, s: bool, v': bool, h': bool, mtus': seq<nat>,
      s': bool)
    requires OwnLines(v, growth, h, mtus, s) == OwnLines(v', growth, h', mtus', s')
    ensures v == v' && h == h' && mtus == mtus' && s == s'
  {
    hide OwnLines;
    OwnLinesHold(v, growth, h, mtus, s);
    OwnLinesHold(v', growth, h', mtus', s');
    SameOptionalLines(v, growth, h, mtus, s, mtus');
  }

  lemma SameOptionalLines(v: bool, growth: bool, h: bool, mtus: seq<nat>, s: bool, mtus': seq<nat>)
    requires OwnLines(v, growth, h, mtus, s) == OwnLines(v, growth, h, mtus', s)
    ensures mtus == mtus'
  {
    hide VsockLine, ScsiLine, MemLine, SERIAL_LINE, NetLines, NetLine;
    NetLinesLength(mtus, |mtus|);
    NetLinesLength(mtus', |mtus'|);
    var front := (if v then [VsockLine()] else []) + (if growth then [MemLine()] else []) +
      (if h then [ScsiLine()] else []);
    var back := if s then [SERIAL_LINE] else [];
    ThreeParts(front, NetLines(mtus, |mtus|), back, front, NetLines(mtus', |mtus'|), back);
    NetLinesSay(mtus, mtus', |mtus|);
  }

  // ----- the theorem

  lemma RecordsReadable(s: Spec, biosSize: nat, hostCPU: string)
    ensures Records.Readable(RecordsOf(s, biosSize, hostCPU))
  {
    hide ShapeOf, ContractLines, Itoa;
    var rs := RecordsOf(s, biosSize, hostCPU);
    forall r | r in rs ensures '=' !in r.key {
      var i :| 0 <= i < |rs| && rs[i] == r;
      KeysHaveNoEquals();
      assert r in ShapeRecords(s, biosSize) || r in ContractRecords(ContractLines(s)) || r in HostRecords(s, hostCPU);
    }
  }

  lemma KeysHaveNoEquals()
    ensures '=' !in "bios-size" && '=' !in "machine" && '=' !in "accel" && '=' !in "cpu"
    ensures '=' !in "smp" && '=' !in "memory" && '=' !in "contract" && '=' !in "host-cpu"
  {
  }

  lemma ShapeRecordsSay(a: Spec, size: nat, b: Spec, size': nat)
    requires Accepts(a) && Accepts(b)
    ensures ShapeRecords(a, size) == ShapeRecords(b, size') <==>
            && size == size' && Accel(a) == Accel(b) && CpuModel(a) == CpuModel(b)
            && a.bootCPUs == b.bootCPUs && Ceiling(a.bootCPUs, a.maxCPUs) == Ceiling(b.bootCPUs, b.maxCPUs)
            && a.sizeMB == b.sizeMB && Ceiling(a.sizeMB, a.maxMB) == Ceiling(b.sizeMB, b.maxMB)
  {
    hide SmpArg, MemoryArg, CpuOptions, Itoa, Ceiling;
    CpuSays(CpuModel(a), CpuModel(b));
    SmpSays(a, b);
    MemorySays(a, b);
    var x, y := ShapeRecords(a, size), ShapeRecords(b, size');
    if x == y {
      assert x[0] == y[0] && x[2] == y[2] && x[3] == y[3] && x[4] == y[4] && x[5] == y[5];
      ItoaInjective(size, size');
    }
  }

  lemma ContractRecordsSay(a: seq<string>, b: seq<string>)
    requires ContractRecords(a) == ContractRecords(b)
    ensures a == b
  {
    forall i | 0 <= i < |a| ensures a[i] == b[i] {
      assert ContractRecords(a)[i] == ContractRecords(b)[i];
    }
  }

  lemma HostRecordsAre(s: Spec, host: string)
    requires Accepts(s)
    ensures HostRecords(s, host) == if DerivedFromHost(CpuModel(s)) then [Record("host-cpu", host)] else []
  {
    CpuModelIsCut(s);
    hide CutModel, CpuModel;
  }

  lemma RecordsSay(a: Spec, size: nat, host: string, b: Spec, size': nat, host': string)
    requires Accepts(a) && Accepts(b)
    requires RecordsOf(a, size, host) == RecordsOf(b, size', host')
    ensures ShapeRecords(a, size) == ShapeRecords(b, size')
    ensures ContractLines(a) == ContractLines(b)
    ensures DerivedFromHost(CpuModel(a)) ==> host == host'
  {
    ShapeRecordsSay(a, size, b, size');
    SixShapeRecords(a, size);
    SixShapeRecords(b, size');
    HostRecordsAre(a, host);
    HostRecordsAre(b, host');
    hide ShapeRecords, ContractLines, CpuModel, ContractRecords, Accepts, Ceiling, Accel, HostRecords;
    ThreeParts(ShapeRecords(a, size), ContractRecords(ContractLines(a)), HostRecords(a, host),
               ShapeRecords(b, size'), ContractRecords(ContractLines(b)), HostRecords(b, host'));
    assert CpuModel(a) == CpuModel(b);
    assert |HostRecords(a, host)| == |HostRecords(b, host')|;
    ContractRecordsSay(ContractLines(a), ContractLines(b));
    if DerivedFromHost(CpuModel(a)) {
      assert HostRecords(a, host)[0].value == HostRecords(b, host')[0].value;
    }
  }

  lemma SixShapeRecords(s: Spec, size: nat)
    ensures |ShapeRecords(s, size)| == 6
  {
  }

  lemma SameOwnLines(a: Spec, b: Spec)
    requires Accepts(a) && Accepts(b) && ContractLines(a) == ContractLines(b)
    requires (a.maxMB > a.sizeMB) == (b.maxMB > b.sizeMB)
    ensures (a.vsockCID != 0) == (b.vsockCID != 0) && (a.hotplugDisks > 0) == (b.hotplugDisks > 0)
    ensures Mtus(a.nics) == Mtus(b.nics) && HasSerial(a) == HasSerial(b)
  {
    hide ContractLines, FixedLines, OwnLines, Accepts, HasSerial, Mtus;
    ContractIs(a);
    ContractIs(b);
    var growth := a.maxMB > a.sizeMB;
    var x := OwnLines(a.vsockCID != 0, growth, a.hotplugDisks > 0, Mtus(a.nics), HasSerial(a));
    var y := OwnLines(b.vsockCID != 0, growth, b.hotplugDisks > 0, Mtus(b.nics), HasSerial(b));
    assert (FixedLines() + x)[|FixedLines()|..] == x && (FixedLines() + y)[|FixedLines()|..] == y;
    OwnLinesSay(a.vsockCID != 0, growth, a.hotplugDisks > 0, Mtus(a.nics), HasSerial(a),
                b.vsockCID != 0, b.hotplugDisks > 0, Mtus(b.nics), HasSerial(b));
  }

  lemma SameHardwareSameRecords(a: Spec, size: nat, host: string, b: Spec, size': nat, host': string)
    requires Accepts(a) && Accepts(b) && HardwareOf(a, size, host) == HardwareOf(b, size', host')
    ensures RecordsOf(a, size, host) == RecordsOf(b, size', host')
  {
    hide ContractLines, FixedLines, OwnLines, Accepts, HasSerial, Mtus, ShapeRecords, CpuModel, Accel, HostRecords,
         HardwareOf;
    HardwareIs(a, size, host);
    HardwareIs(b, size', host');
    ShapeRecordsSay(a, size, b, size');
    HostRecordsAre(a, host);
    HostRecordsAre(b, host');
    assert (a.maxMB > a.sizeMB) == (b.maxMB > b.sizeMB);
    ContractIs(a);
    ContractIs(b);
  }

  /** The contract of a checkpoint: for any two specs validate accepts, on any two hosts, the
      bytes hashed are equal if and only if the machines are the same hardware. Disks, paths,
      MACs, ids, descriptors, context ids, QEMU, the kernel and how many disks may arrive are
      not in Hardware, so they never matter; everything in it always does. */
  lemma SameBytesIffSameHardware(a: Spec, size: nat, host: string, b: Spec, size': nat, host': string)
    requires Accepts(a) && Accepts(b)
    ensures Hashed(a, size, host) == Hashed(b, size', host') <==>
            HardwareOf(a, size, host) == HardwareOf(b, size', host')
  {
    RecordsReadable(a, size, host);
    RecordsReadable(b, size', host');
    EncodingIsInjective(RecordsOf(a, size, host), RecordsOf(b, size', host'));
    hide RecordsOf, ShapeRecords, ContractLines, Accepts, Mtus, HasSerial, Accel, CpuModel, EncodeAll, HardwareOf;
    HardwareIs(a, size, host);
    HardwareIs(b, size', host');
    if Hashed(a, size, host) == Hashed(b, size', host') {
      RecordsSay(a, size, host, b, size', host');
      ShapeRecordsSay(a, size, b, size');
      SameOwnLines(a, b);
    }
    if HardwareOf(a, size, host) == HardwareOf(b, size', host') {
      SameHardwareSameRecords(a, size, host, b, size', host');
    }
  }

  /** Of one machine, two hosts hash different bytes exactly when their CPUs differ and the guest is shown
      them: when the spec names no model, or the host's, or all the emulator has. */
  lemma HostCPUMatters(s: Spec, size: nat, host: string, host': string)
    requires Accepts(s)
    ensures Hashed(s, size, host) == Hashed(s, size, host') <==>
            host == host' || (s.cpu != "" && s.cpu != "host" && s.cpu != "max")
  {
    hide Hashed, Accepts, Mtus;
    SameBytesIffSameHardware(s, size, host, s, size, host');
  }

  // ----- the contract, line by line

  /** The line of a device: its driver and its properties, joined as on a command line. */
  function Device(parts: seq<string>): string { "device " + Join(parts, ",") }

  function SlotText(n: nat): string { "addr=0x" + Hex(n) }

  /** The lines of a machine's NICs: which slot each is on, and its MTU when it has one. */
  function NICTexts(ns: seq<NIC>, n: nat): seq<string>
    requires n <= |ns|
  {
    if n == 0 then [] else
      NICTexts(ns, n - 1) +
      [Device(["virtio-net-pci", "romfile=", "disable-legacy=on", SlotText(0x10 + n - 1)] +
              if ns[n - 1].mtu > 0 then ["host_mtu=" + Itoa(ns[n - 1].mtu)] else [])]
  }

  /** All the text a checkpoint of an accepted machine is bound to besides its shape. */
  lemma ContractSays(s: Spec)
    requires Accepts(s)
    ensures ContractLines(s) ==
            ["global " + "ICH9-LPC.disable_s3=1", "global " + "ICH9-LPC.disable_s4=1",
             "global " + "ICH9-LPC.acpi-pci-hotplug-with-bridge-support=off"] +
            [Device(["vmgenid", "guid=auto"]), Device(["virtio-rng-pci", "disable-legacy=on", SlotText(0x03)]),
             Device(["virtio-balloon-pci", "free-page-reporting=on", "deflate-on-oom=on", "disable-legacy=on",
                     SlotText(0x04)])] +
            ((if s.vsockCID != 0 then [Device(["vhost-vsock-pci", "disable-legacy=on", SlotText(0x02)])] else []) +
             (if s.maxMB > s.sizeMB then
                [Device(["virtio-mem-pci", "requested-size=0", "disable-legacy=on", SlotText(0x1e)])] else []) +
             (if s.hotplugDisks > 0 then [Device(["virtio-scsi-pci", "disable-legacy=on", SlotText(0x1a)])] else []) +
             NICTexts(s.nics, |s.nics|) +
             if s.serial != "" || s.serialFDSet != 0 then ["serial isa-serial"] else [])
  {
    ContractIs(s);
    hide Accepts, ContractLines, LinesOf, SlotText, Device, NICTexts, Mtus, NetLines, VsockLine, MemLine, ScsiLine,
         FixedDeviceItems, CHIPSET;
    ChipsetText();
    FixedText();
    OwnTexts();
    NICsText(s.nics, |s.nics|);
  }

  lemma ChipsetText()
    ensures LinesOf(CHIPSET) ==
            ["global " + "ICH9-LPC.disable_s3=1", "global " + "ICH9-LPC.disable_s4=1",
             "global " + "ICH9-LPC.acpi-pci-hotplug-with-bridge-support=off"]
  {
    var a, b, c, d := CHIPSET[0], CHIPSET[1], CHIPSET[2], CHIPSET[3];
    assert CHIPSET == [a] + [b] + [c] + [d];
    GlobalTexts();
    hide LinesOf, LineOf, MeantBy, CHIPSET;
    LinesConcat([a] + [b] + [c], [d]);
    LinesConcat([a] + [b], [c]);
    LinesConcat([a], [b]);
    LinesOne(a);
    LinesOne(b);
    LinesOne(c);
    LinesOne(d);
  }

  lemma GlobalTexts()
    ensures LineOf(MeantBy(CHIPSET[0])) == ["global " + "ICH9-LPC.disable_s3=1"]
    ensures LineOf(MeantBy(CHIPSET[1])) == ["global " + "ICH9-LPC.disable_s4=1"]
    ensures LineOf(MeantBy(CHIPSET[2])) == ["global " + "ICH9-LPC.acpi-pci-hotplug-with-bridge-support=off"]
    ensures LineOf(MeantBy(CHIPSET[3])) == []
  {
    GlobalText(CHIPSET[0].text);
    GlobalText(CHIPSET[1].text);
    GlobalText(CHIPSET[2].text);
  }

  lemma GlobalText(text: string)
    ensures LineOf(MeantBy(Verbatim("-global", text))) == ["global " + text]
  {
  }

  lemma LineJoins(driver: string, kept: seq<Opt>, texts: seq<string>)
    requires PrintedAll(kept) == texts
    ensures Line(driver, kept) == Device([driver] + texts)
  {
  }

  lemma ModernText(n: nat)
    ensures Printed(MODERN_OPT) == "disable-legacy=on" && Printed(SlotOpt(n)) == SlotText(n)
  {
    hide Hex;
    assert "addr" + "=" + ("0x" + Hex(n)) == "addr=0x" + Hex(n);
  }

  lemma OwnTexts()
    ensures VsockLine() == Device(["vhost-vsock-pci", "disable-legacy=on", SlotText(0x02)])
    ensures ScsiLine() == Device(["virtio-scsi-pci", "disable-legacy=on", SlotText(0x1a)])
    ensures MemLine() == Device(["virtio-mem-pci", "requested-size=0", "disable-legacy=on", SlotText(0x1e)])
  {
    hide SlotText, Line, MODERN_OPT, SlotOpt, Device, Printed;
    ModernText(SLOT_VSOCK);
    ModernText(SLOT_HOTPLUG);
    ModernText(SLOT_MEM);
    SizeText();
    LineJoins("vhost-vsock-pci", [MODERN_OPT, SlotOpt(SLOT_VSOCK)], ["disable-legacy=on", SlotText(0x02)]);
    LineJoins("virtio-scsi-pci", [MODERN_OPT, SlotOpt(SLOT_HOTPLUG)], ["disable-legacy=on", SlotText(0x1a)]);
    LineJoins("virtio-mem-pci", [Set("requested-size", "0"), MODERN_OPT, SlotOpt(SLOT_MEM)],
              ["requested-size=0", "disable-legacy=on", SlotText(0x1e)]);
    assert ["vhost-vsock-pci"] + ["disable-legacy=on", SlotText(0x02)] ==
           ["vhost-vsock-pci", "disable-legacy=on", SlotText(0x02)];
    assert ["virtio-scsi-pci"] + ["disable-legacy=on", SlotText(0x1a)] ==
           ["virtio-scsi-pci", "disable-legacy=on", SlotText(0x1a)];
    assert ["virtio-mem-pci"] + ["requested-size=0", "disable-legacy=on", SlotText(0x1e)] ==
           ["virtio-mem-pci", "requested-size=0", "disable-legacy=on", SlotText(0x1e)];
  }

  lemma SizeText()
    ensures Printed(Set("requested-size", "0")) == "requested-size=0" && Printed(Set("romfile", "")) == "romfile="
    ensures Printed(Set("guid", "auto")) == "guid=auto"
    ensures Printed(Set("free-page-reporting", "on")) == "free-page-reporting=on"
    ensures Printed(Set("deflate-on-oom", "on")) == "deflate-on-oom=on"
  {
  }

  lemma FixedText()
    ensures LinesOf(FixedDeviceItems()) ==
            [Device(["vmgenid", "guid=auto"]), Device(["virtio-rng-pci", "disable-legacy=on", SlotText(0x03)]),
             Device(["virtio-balloon-pci", "free-page-reporting=on", "deflate-on-oom=on", "disable-legacy=on",
                     SlotText(0x04)])]
  {
    hide LinesOf, LineOf, MeantBy, VMGENID, RngProps, BalloonProps, Device, SlotText;
    var a, b, c := Listed("-device", VMGENID), Listed("-device", RngProps()), Listed("-device", BalloonProps());
    assert FixedDeviceItems() == [a] + [b] + [c];
    LinesConcat([a] + [b], [c]);
    LinesConcat([a], [b]);
    LinesOne(a);
    LinesOne(b);
    LinesOne(c);
    GenerationText();
    RngText();
    BalloonText();
  }

  lemma GenerationText()
    ensures LineOf(MeantBy(Listed("-device", VMGENID))) == [Device(["vmgenid", "guid=auto"])]
  {
    GenerationKept();
    SizeText();
    hide LineOf, MeantBy, Device, Line, VMGENID, Printed;
    LineJoins("vmgenid", [Set("guid", "auto")], ["guid=auto"]);
    assert ["vmgenid"] + ["guid=auto"] == ["vmgenid", "guid=auto"];
  }

  lemma GenerationKept()
    ensures LineOf(MeantBy(Listed("-device", VMGENID))) == [Line("vmgenid", [Set("guid", "auto")])]
  {
    var guid := [Set("guid", "auto")];
    assert MeantAll(VMGENID) == [Flag("vmgenid")] + guid;
    assert NoneVms(guid) && "vmgenid" != "virtio-blk-pci";
    hide MeantAll, Line, OptIsVms, LineOf, MeantBy, KeepOpts;
    KeepOptsAll(guid);
    DeviceHasLine(VMGENID, "vmgenid", guid, guid);
  }

  lemma RngText()
    ensures LineOf(MeantBy(Listed("-device", RngProps()))) ==
            [Device(["virtio-rng-pci", "disable-legacy=on", SlotText(0x03)])]
  {
    RngKept();
    ModernText(SLOT_RNG);
    hide LineOf, MeantBy, Device, Line, RngProps, Printed, SlotText, MODERN_OPT, SlotOpt;
    LineJoins("virtio-rng-pci", [MODERN_OPT, SlotOpt(SLOT_RNG)], ["disable-legacy=on", SlotText(0x03)]);
    assert ["virtio-rng-pci"] + ["disable-legacy=on", SlotText(0x03)] ==
           ["virtio-rng-pci", "disable-legacy=on", SlotText(0x03)];
  }

  lemma RngKept()
    ensures LineOf(MeantBy(Listed("-device", RngProps()))) == [Line("virtio-rng-pci", [MODERN_OPT, SlotOpt(SLOT_RNG)])]
  {
    RngMeant();
    SlotStays(SLOT_RNG);
    ModernStays();
    hide MeantAll, Line, OptIsVms, LineOf, MeantBy, KeepOpts, MODERN_OPT, SlotOpt, RngProps;
    var os := [MODERN_OPT, SlotOpt(SLOT_RNG)];
    KeepOptsAll(os);
    DeviceHasLine(RngProps(), "virtio-rng-pci", os, os);
  }

  lemma RngMeant()
    ensures MeantAll(RngProps()) == [Flag("virtio-rng-pci")] + [MODERN_OPT, SlotOpt(SLOT_RNG)]
    ensures "virtio-rng-pci" != "virtio-blk-pci" && "virtio-balloon-pci" != "virtio-blk-pci"
  {
    hide Hex;
    assert "virtio-rng-pci"[7] != "virtio-blk-pci"[7];
  }

  lemma BalloonText()
    ensures LineOf(MeantBy(Listed("-device", BalloonProps()))) ==
            [Device(["virtio-balloon-pci", "free-page-reporting=on", "deflate-on-oom=on", "disable-legacy=on",
                     SlotText(0x04)])]
  {
    BalloonKept();
    SizeText();
    ModernText(SLOT_BALLOON);
    hide LineOf, MeantBy, Device, Line, BalloonProps, Printed, SlotText, MODERN_OPT, SlotOpt;
    var texts := ["free-page-reporting=on", "deflate-on-oom=on", "disable-legacy=on", SlotText(0x04)];
    LineJoins("virtio-balloon-pci", [Set("free-page-reporting", "on"), Set("deflate-on-oom", "on"), MODERN_OPT,
                                     SlotOpt(SLOT_BALLOON)], texts);
    FiveTexts("virtio-balloon-pci", texts[0], texts[1], texts[2], texts[3]);
  }

  lemma FiveTexts(a: string, b: string, c: string, d: string, e: string)
    ensures [a] + [b, c, d, e] == [a, b, c, d, e]
  {
  }

  lemma BalloonKept()
    ensures LineOf(MeantBy(Listed("-device", BalloonProps()))) ==
            [Line("virtio-balloon-pci", [Set("free-page-reporting", "on"), Set("deflate-on-oom", "on"), MODERN_OPT,
                                         SlotOpt(SLOT_BALLOON)])]
  {
    BalloonMeant();
    RngMeant();
    SlotStays(SLOT_BALLOON);
    ModernStays();
    BalloonStays();
    hide MeantAll, Line, OptIsVms, LineOf, MeantBy, KeepOpts, MODERN_OPT, SlotOpt, BalloonProps;
    var os := [Set("free-page-reporting", "on"), Set("deflate-on-oom", "on"), MODERN_OPT, SlotOpt(SLOT_BALLOON)];
    KeepOptsAll(os);
    DeviceHasLine(BalloonProps(), "virtio-balloon-pci", os, os);
  }

  lemma BalloonMeant()
    ensures MeantAll(BalloonProps()) ==
            [Flag("virtio-balloon-pci")] +
            [Set("free-page-reporting", "on"), Set("deflate-on-oom", "on"), MODERN_OPT, SlotOpt(SLOT_BALLOON)]
  {
    hide Hex;
  }

  lemma BalloonStays()
    ensures !OptIsVms(Set("free-page-reporting", "on")) && !OptIsVms(Set("deflate-on-oom", "on"))
  {
  }

  lemma NICText(i: nat, n: NIC)
    ensures NetLine(i, Mtu(n)) ==
            Device(["virtio-net-pci", "romfile=", "disable-legacy=on", SlotText(0x10 + i)] +
                   if n.mtu > 0 then ["host_mtu=" + Itoa(n.mtu)] else [])
  {
    ModernText(SLOT_NIC_BASE + i);
    SizeText();
    MtuText(n);
    hide Itoa, SlotText, Line, MODERN_OPT, SlotOpt, Device, Printed;
    var own := [Set("romfile", ""), MODERN_OPT, SlotOpt(SLOT_NIC_BASE + i)];
    var mtu := if n.mtu > 0 then [Set("host_mtu", Itoa(n.mtu))] else [];
    var last := if n.mtu > 0 then ["host_mtu=" + Itoa(n.mtu)] else [];
    var texts := ["romfile=", "disable-legacy=on", SlotText(0x10 + i)];
    LineJoins("virtio-net-pci", own + mtu, texts + last);
    assert ["virtio-net-pci"] + (texts + last) ==
           ["virtio-net-pci", "romfile=", "disable-legacy=on", SlotText(0x10 + i)] + last;
  }

  lemma MtuText(n: NIC)
    ensures Printed(Set("host_mtu", Itoa(n.mtu))) == "host_mtu=" + Itoa(n.mtu)
  {
    hide Itoa;
  }

  lemma {:induction false} NICsText(ns: seq<NIC>, n: nat)
    requires n <= |ns|
    ensures NetLines(Mtus(ns), n) == NICTexts(ns, n)
  {
    hide NetLine, SlotText, Itoa, Device;
    if n > 0 {
      NICsText(ns, n - 1);
      NICText(n - 1, ns[n - 1]);
    }
  }
}
