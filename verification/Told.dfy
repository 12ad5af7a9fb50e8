/** What QEMU is told of a machine: every part of an accepted spec, found again by its own value in what
    QEMU reads off the command line. */
module Told {
  import opened Text
  import opened QemuOptions
  import opened Argv
  import opened Machine
  import opened Args
  import Cmdline
  import Fingerprint
  import Readback
  import Records

  // ----- looking through what was read

  function FlagOf(r: Reading): string {
    match r
    case ReadBare(flag) => flag
    case ReadText(flag, _) => flag
    case ReadOpts(flag, _) => flag
    case ReadBlock(_) => "-blockdev"
  }

  /** What was read under one flag, in order. */
  function Under(rs: seq<Reading>, flag: string): seq<Reading> {
    if rs == [] then [] else (if FlagOf(rs[0]) == flag then [rs[0]] else []) + Under(rs[1..], flag)
  }

  /** What QEMU reads off a spec's command line under one flag. */
  function Read(s: Spec, flag: string): seq<Reading> {
    match ReadArgv(RenderedAll(AllItems(s))) case None => [] case Some(rs) => Under(rs, flag)
  }

  /** The options of the k-th reading of a flag. */
  function OptsAt(s: Spec, flag: string, k: nat): seq<Opt> {
    var rs := Read(s, flag);
    if k < |rs| && rs[k].ReadOpts? then rs[k].opts else []
  }

  /** Options set a key to one value and to no other. */
  predicate Says(o: seq<Opt>, key: string, value: string) {
    Set(key, value) in o && forall x | x in o && x.Set? && x.key == key :: x.value == value
  }

  predicate Silent(o: seq<Opt>, key: string) { forall x | x in o && x.Set? :: x.key != key }

  /** Options begin with a word and hold no other, and no key but these. */
  predicate Headed(o: seq<Opt>, word: string, keys: set<string>) {
    o != [] && o[0] == Flag(word) && forall i | 1 <= i < |o| :: o[i].Set? && o[i].key in keys
  }

  predicate Keys(o: seq<Opt>, keys: set<string>) { forall x | x in o :: x.Set? && x.key in keys }

  // ----- the items of a flag

  function ItemFlag(i: Item): string {
    match i
    case Bare(flag) => flag
    case Verbatim(flag, _) => flag
    case Listed(flag, _) => flag
    case Socket(_) => "-qmp"
    case Block(_) => "-blockdev"
  }

  function IfOf(i: Item, flag: string): seq<Item> { if ItemFlag(i) == flag then [i] else [] }

  function Select(items: seq<Item>, flag: string): seq<Item> {
    if items == [] then [] else IfOf(items[0], flag) + Select(items[1..], flag)
  }

  lemma {:induction false} UnderSelects(items: seq<Item>, flag: string)
    ensures Under(ReadAsAll(items), flag) == ReadAsAll(Select(items, flag))
  {
    hide ReadAs;
    if items != [] {
      UnderSelects(items[1..], flag);
      FlagIsRead(items[0]);
      var rs := ReadAsAll(items);
      assert rs[1..] == ReadAsAll(items[1..]);
    }
  }

  lemma FlagIsRead(i: Item)
    ensures FlagOf(ReadAs(i)) == ItemFlag(i)
  {
  }

  lemma {:induction false} SelectConcat(a: seq<Item>, b: seq<Item>, flag: string)
    ensures Select(a + b, flag) == Select(a, flag) + Select(b, flag)
  {
    hide IfOf;
    if a == [] {
      assert a + b == b;
    } else {
      assert (a + b)[1..] == a[1..] + b;
      SelectConcat(a[1..], b, flag);
      Grouped(IfOf(a[0], flag), Select(a[1..], flag), Select(b, flag));
    }
  }

  lemma Grouped<T>(a: seq<T>, b: seq<T>, c: seq<T>)
    ensures a + (b + c) == a + b + c
  {
  }

  predicate Flagged(items: seq<Item>, flags: set<string>) { forall i | i in items :: ItemFlag(i) in flags }

  lemma {:induction false} SelectNone(items: seq<Item>, flag: string)
    requires forall i | i in items :: ItemFlag(i) != flag
    ensures Select(items, flag) == []
  {
    if items != [] {
      assert items[0] in items && forall i | i in items[1..] :: i in items;
      SelectNone(items[1..], flag);
    }
  }

  lemma {:induction false} SelectAll(items: seq<Item>, flag: string)
    requires forall i | i in items :: ItemFlag(i) == flag
    ensures Select(items, flag) == items
  {
    if items != [] {
      assert items[0] in items && forall i | i in items[1..] :: i in items;
      SelectAll(items[1..], flag);
    }
  }

  lemma SelectOne(i: Item, flag: string)
    ensures Select([i], flag) == if ItemFlag(i) == flag then [i] else []
  {
    assert [i][1..] == [];
  }

  lemma NothingSelected(flag: string)
    ensures Select([], flag) == []
  {
  }

  // ----- which part has which flags

  const HEAD: set<string> := {"-L", "-bios", "-nodefaults", "-nographic", "-sandbox"}
  const SHAPE: set<string> := {"-machine", "-accel", "-cpu", "-smp", "-m"}
  const FIXED: set<string> := {"-global", "-no-reboot"}
  const BOOT: set<string> := {"-kernel", "-initrd", "-append"}
  const DEVICES: set<string> := {"-device", "-object"}
  const DISKS: set<string> := {"-blockdev", "-drive", "-device"}
  const NICS: set<string> := {"-netdev", "-device"}
  const CONSOLE: set<string> := {"-chardev", "-serial"}
  const MONITORS: set<string> := {"-qmp", "-chardev", "-object"}
  const SETS: set<string> := {"-add-fd"}
  const INCOMING: set<string> := {"-incoming"}

  lemma FixedFlags(s: Spec)
    ensures Flagged(HeadItems(s), HEAD) && Flagged(ShapeItems(s), SHAPE) && Flagged(CHIPSET, FIXED)
    ensures Flagged(BootItems(s), BOOT) && Flagged(ConsoleItems(s), CONSOLE) && Flagged(IncomingItems(s), INCOMING)
  {
    hide AccelProps, ShapeOf, ConsoleProps;
  }

  lemma DeviceFlags(s: Spec)
    ensures Flagged(DeviceItems(s), DEVICES)
  {
    hide VMGENID, RngProps, BalloonProps, VsockProps, GrowthProps, VirtioMemProps, ScsiProps;
    assert Flagged(FixedDeviceItems(), DEVICES) && Flagged(VsockItems(s), DEVICES);
    assert Flagged(GrowthItems(s), DEVICES) && Flagged(HotplugItems(s), DEVICES);
  }

  lemma {:induction false} BlockFlags(nodes: seq<Node>)
    ensures forall i | i in Blocks(nodes) :: ItemFlag(i) == "-blockdev"
  {
    if nodes != [] {
      BlockFlags(nodes[1..]);
    }
  }

  lemma {:induction false} DiskFlags(ds: seq<Disk>, n: nat)
    requires n <= |ds|
    ensures Flagged(DisksItems(ds, n), DISKS)
  {
    if n > 0 {
      hide DriveProps, BlkProps, ChainNodes;
      DiskFlags(ds, n - 1);
      BlockFlags(ChainNodes(ds[n - 1], n - 1, 0));
      assert Flagged(DiskItems(ds[n - 1], n - 1), DISKS);
    }
  }

  lemma {:induction false} NICFlags(ns: seq<NIC>, n: nat)
    requires n <= |ns|
    ensures Flagged(NICsItems(ns, n), NICS)
  {
    if n > 0 {
      hide NetdevProps, NetProps;
      NICFlags(ns, n - 1);
      assert Flagged(NICItems(ns[n - 1], n - 1), NICS);
    }
  }

  lemma {:induction false} MonitorFlags(ms: seq<Monitor>, n: nat)
    requires n <= |ms|
    ensures Flagged(MonitorsItems(ms, n), MONITORS)
  {
    if n > 0 {
      hide QmpChardevProps, QmpMonitorProps;
      MonitorFlags(ms, n - 1);
      assert Flagged(MonitorItems(ms[n - 1], n - 1), MONITORS);
    }
  }

  lemma {:induction false} FDFlags(f: FDSet, n: nat)
    requires n <= |f.fds|
    ensures Flagged(FDItems(f, n), SETS)
  {
    if n > 0 {
      hide FDProps;
      FDFlags(f, n - 1);
    }
  }

  lemma {:induction false} SetFlags(fs: seq<FDSet>, n: nat)
    requires n <= |fs|
    ensures Flagged(FDSetsItems(fs, n), SETS)
  {
    if n > 0 {
      SetFlags(fs, n - 1);
      FDFlags(fs[n - 1], |fs[n - 1].fds|);
    }
  }

  /** The items of a flag, part by part. */
  function Parts(s: Spec, flag: string): seq<Item> {
    Select(HeadItems(s), flag) + Select(ShapeItems(s), flag) + Select(CHIPSET, flag) + Select(BootItems(s), flag) +
    Select(DeviceItems(s), flag) + Select(DisksItems(s.disks, |s.disks|), flag) +
    Select(NICsItems(s.nics, |s.nics|), flag) + Select(ConsoleItems(s), flag) +
    Select(MonitorsItems(s.monitors, |s.monitors|), flag) + Select(FDSetsItems(s.fdSets, |s.fdSets|), flag) +
    Select(IncomingItems(s), flag)
  }

  lemma SelectParts(s: Spec, flag: string)
    ensures Select(AllItems(s), flag) == Parts(s, flag)
  {
    hide *;
    SelectFront(s, flag);
    var items := HeadItems(s) + ShapeItems(s) + CHIPSET + BootItems(s) + DeviceItems(s) +
      DisksItems(s.disks, |s.disks|);
    SelectConcat(items, NICsItems(s.nics, |s.nics|), flag);
    items := items + NICsItems(s.nics, |s.nics|);
    SelectConcat(items, ConsoleItems(s), flag);
    items := items + ConsoleItems(s);
    SelectConcat(items, MonitorsItems(s.monitors, |s.monitors|), flag);
    items := items + MonitorsItems(s.monitors, |s.monitors|);
    SelectConcat(items, FDSetsItems(s.fdSets, |s.fdSets|), flag);
    items := items + FDSetsItems(s.fdSets, |s.fdSets|);
    SelectConcat(items, IncomingItems(s), flag);
    Readback.AllItemsAre(s);
    PartsAre(s, flag);
  }

  lemma PartsAre(s: Spec, flag: string)
    ensures Parts(s, flag) ==
            Select(HeadItems(s), flag) + Select(ShapeItems(s), flag) + Select(CHIPSET, flag) +
            Select(BootItems(s), flag) + Select(DeviceItems(s), flag) + Select(DisksItems(s.disks, |s.disks|), flag) +
            Select(NICsItems(s.nics, |s.nics|), flag) + Select(ConsoleItems(s), flag) +
            Select(MonitorsItems(s.monitors, |s.monitors|), flag) + Select(FDSetsItems(s.fdSets, |s.fdSets|), flag) +
            Select(IncomingItems(s), flag)
  {
  }

  lemma SelectFront(s: Spec, flag: string)
    ensures Select(HeadItems(s) + ShapeItems(s) + CHIPSET + BootItems(s) + DeviceItems(s) +
                   DisksItems(s.disks, |s.disks|), flag) ==
            Select(HeadItems(s), flag) + Select(ShapeItems(s), flag) + Select(CHIPSET, flag) +
            Select(BootItems(s), flag) + Select(DeviceItems(s), flag) + Select(DisksItems(s.disks, |s.disks|), flag)
  {
    hide *;
    var items := HeadItems(s);
    SelectConcat(items, ShapeItems(s), flag);
    items := items + ShapeItems(s);
    SelectConcat(items, CHIPSET, flag);
    items := items + CHIPSET;
    SelectConcat(items, BootItems(s), flag);
    items := items + BootItems(s);
    SelectConcat(items, DeviceItems(s), flag);
    items := items + DeviceItems(s);
    SelectConcat(items, DisksItems(s.disks, |s.disks|), flag);
  }

  lemma NotFlagged(items: seq<Item>, flags: set<string>, flag: string)
    requires Flagged(items, flags) && flag !in flags
    ensures Select(items, flag) == []
  {
    SelectNone(items, flag);
  }

  /** A part without a flag has nothing of it. */
  lemma SilentParts(s: Spec, flag: string)
    ensures flag !in HEAD ==> Select(HeadItems(s), flag) == []
    ensures flag !in SHAPE ==> Select(ShapeItems(s), flag) == []
    ensures flag !in FIXED ==> Select(CHIPSET, flag) == []
    ensures flag !in BOOT ==> Select(BootItems(s), flag) == []
    ensures flag !in DEVICES ==> Select(DeviceItems(s), flag) == []
    ensures flag !in DISKS ==> Select(DisksItems(s.disks, |s.disks|), flag) == []
    ensures flag !in NICS ==> Select(NICsItems(s.nics, |s.nics|), flag) == []
    ensures flag !in CONSOLE ==> Select(ConsoleItems(s), flag) == []
    ensures flag !in MONITORS ==> Select(MonitorsItems(s.monitors, |s.monitors|), flag) == []
    ensures flag !in SETS ==> Select(FDSetsItems(s.fdSets, |s.fdSets|), flag) == []
    ensures flag !in INCOMING ==> Select(IncomingItems(s), flag) == []
  {
    hide *;
    FixedFlags(s);
    DeviceFlags(s);
    DiskFlags(s.disks, |s.disks|);
    NICFlags(s.nics, |s.nics|);
    MonitorFlags(s.monitors, |s.monitors|);
    SetFlags(s.fdSets, |s.fdSets|);
    if flag !in HEAD { NotFlagged(HeadItems(s), HEAD, flag); }
    if flag !in SHAPE { NotFlagged(ShapeItems(s), SHAPE, flag); }
    if flag !in FIXED { NotFlagged(CHIPSET, FIXED, flag); }
    if flag !in BOOT { NotFlagged(BootItems(s), BOOT, flag); }
    if flag !in DEVICES { NotFlagged(DeviceItems(s), DEVICES, flag); }
    if flag !in DISKS { NotFlagged(DisksItems(s.disks, |s.disks|), DISKS, flag); }
    if flag !in NICS { NotFlagged(NICsItems(s.nics, |s.nics|), NICS, flag); }
    if flag !in CONSOLE { NotFlagged(ConsoleItems(s), CONSOLE, flag); }
    if flag !in MONITORS { NotFlagged(MonitorsItems(s.monitors, |s.monitors|), MONITORS, flag); }
    if flag !in SETS { NotFlagged(FDSetsItems(s.fdSets, |s.fdSets|), SETS, flag); }
    if flag !in INCOMING { NotFlagged(IncomingItems(s), INCOMING, flag); }
  }

  lemma ReadIs(s: Spec, flag: string)
    requires Accepts(s)
    ensures Read(s, flag) == ReadAsAll(Parts(s, flag))
  {
    hide AllItems, RenderedAll, ReadArgv, ReadAsAll, MeantByAll, NamesItsOption, Accepts, Under, Select, Parts;
    Readback.CommandLineIsReadBack(s);
    UnderSelects(AllItems(s), flag);
    SelectParts(s, flag);
  }

  // ----- the flags apart

  lemma HeadApart(flag: string)
    requires flag in HEAD
    ensures flag !in SHAPE && flag !in FIXED && flag !in BOOT && flag !in DEVICES && flag !in DISKS && flag !in NICS
    ensures flag !in CONSOLE && flag !in MONITORS && flag !in SETS && flag !in INCOMING
  {
  }

  lemma ShapeApart(flag: string)
    requires flag in SHAPE
    ensures flag !in HEAD && flag !in FIXED && flag !in BOOT && flag !in DEVICES && flag !in DISKS && flag !in NICS
    ensures flag !in CONSOLE && flag !in MONITORS && flag !in SETS && flag !in INCOMING
  {
  }

  lemma FixedApart(flag: string)
    requires flag in FIXED
    ensures flag !in HEAD && flag !in SHAPE && flag !in BOOT && flag !in DEVICES && flag !in DISKS && flag !in NICS
    ensures flag !in CONSOLE && flag !in MONITORS && flag !in SETS && flag !in INCOMING
  {
  }

  lemma BootApart(flag: string)
    requires flag in BOOT || flag in INCOMING
    ensures flag !in HEAD && flag !in SHAPE && flag !in FIXED && flag !in DEVICES && flag !in DISKS && flag !in NICS
    ensures flag !in CONSOLE && flag !in MONITORS && flag !in SETS && (flag in BOOT <==> flag !in INCOMING)
  {
  }

  lemma DeviceApart(flag: string)
    requires flag in DEVICES || flag in DISKS || flag in NICS || flag in CONSOLE || flag in MONITORS || flag in SETS
    ensures flag !in HEAD && flag !in SHAPE && flag !in FIXED && flag !in BOOT && flag !in INCOMING
  {
  }

  // ----- texts

  /** The one item of a flag is what is selected. */
  lemma SelectAt(items: seq<Item>, k: nat, flag: string)
    requires k < |items| && ItemFlag(items[k]) == flag
    requires forall i | 0 <= i < |items| && i != k :: ItemFlag(items[i]) != flag
    ensures Select(items, flag) == [items[k]]
  {
    hide ItemFlag, Select;
    assert items == items[..k] + [items[k]] + items[k + 1..];
    SelectConcat(items[..k] + [items[k]], items[k + 1..], flag);
    SelectConcat(items[..k], [items[k]], flag);
    SelectNone(items[..k], flag);
    SelectNone(items[k + 1..], flag);
    SelectOne(items[k], flag);
  }

  /** The flags of some items, each there once. */
  predicate HasFlags(items: seq<Item>, flags: seq<string>) {
    |items| == |flags| && Distinct(flags) && forall i | 0 <= i < |items| :: ItemFlag(items[i]) == flags[i]
  }

  lemma ReadAt(items: seq<Item>, flags: seq<string>, k: nat)
    requires HasFlags(items, flags) && k < |items|
    ensures ReadAsAll(Select(items, flags[k])) == [ReadAs(items[k])]
  {
    hide Select, ReadAs;
    SelectAt(items, k, flags[k]);
    OneRead(items[k]);
  }

  lemma OneRead(i: Item)
    ensures ReadAsAll([i]) == [ReadAs(i)]
  {
  }

  /** Under a flag of the first part QEMU reads what that part has. */
  lemma HeadRead(s: Spec, flag: string)
    requires Accepts(s) && flag in HEAD
    ensures Read(s, flag) == ReadAsAll(Select(HeadItems(s), flag))
  {
    hide *;
    HeadApart(flag);
    SilentParts(s, flag);
    ReadIs(s, flag);
    PartsAre(s, flag);
  }

  lemma ShapeRead(s: Spec, flag: string)
    requires Accepts(s) && flag in SHAPE
    ensures Read(s, flag) == ReadAsAll(Select(ShapeItems(s), flag))
  {
    hide *;
    ShapeApart(flag);
    SilentParts(s, flag);
    ReadIs(s, flag);
    PartsAre(s, flag);
  }

  lemma FixedRead(s: Spec, flag: string)
    requires Accepts(s) && flag in FIXED
    ensures Read(s, flag) == ReadAsAll(Select(CHIPSET, flag))
  {
    hide *;
    FixedApart(flag);
    SilentParts(s, flag);
    ReadIs(s, flag);
    PartsAre(s, flag);
  }

  lemma BootRead(s: Spec, flag: string)
    requires Accepts(s) && (flag in BOOT || flag in INCOMING)
    ensures Read(s, flag) ==
            ReadAsAll(if flag in BOOT then Select(BootItems(s), flag) else Select(IncomingItems(s), flag))
  {
    hide *;
    BootApart(flag);
    SilentParts(s, flag);
    ReadIs(s, flag);
    PartsAre(s, flag);
  }

  const HEAD_FLAGS := ["-L", "-bios", "-nodefaults", "-nographic", "-sandbox"]

  lemma HeadHasFlags(s: Spec)
    ensures HasFlags(HeadItems(s), HEAD_FLAGS) && forall k | 0 <= k < 5 :: HEAD_FLAGS[k] in HEAD
  {
  }

  lemma HeadAt(s: Spec, k: nat)
    requires Accepts(s) && k < 5
    ensures |HeadItems(s)| == 5 && Read(s, HEAD_FLAGS[k]) == [ReadAs(HeadItems(s)[k])]
  {
    hide Read, Accepts, HeadItems, HEAD, ReadAs;
    HeadHasFlags(s);
    HeadRead(s, HEAD_FLAGS[k]);
    ReadAt(HeadItems(s), HEAD_FLAGS, k);
  }

  /** The firmware, the BIOS, which is qboot's unless the spec names one, and the sandbox. */
  lemma FirmwareIsTold(s: Spec)
    requires Accepts(s)
    ensures Read(s, "-L") == [ReadText("-L", s.firmware)]
    ensures Read(s, "-bios") == [ReadText("-bios", if s.bios == "" then "qboot.bin" else s.bios)]
    ensures Read(s, "-nodefaults") == [ReadBare("-nodefaults")] && Read(s, "-nographic") == [ReadBare("-nographic")]
    ensures Read(s, "-sandbox") ==
            [ReadText("-sandbox", "on,obsolete=deny,elevateprivileges=deny,spawn=deny,resourcecontrol=deny")]
  {
    hide Read, Accepts;
    HeadAt(s, 0);
    HeadAt(s, 1);
    HeadAt(s, 2);
    HeadAt(s, 3);
    HeadAt(s, 4);
  }

  const SHAPE_FLAGS := ["-machine", "-accel", "-cpu", "-smp", "-m"]

  lemma ShapeHasFlags(s: Spec)
    ensures HasFlags(ShapeItems(s), SHAPE_FLAGS) && forall k | 0 <= k < 5 :: SHAPE_FLAGS[k] in SHAPE
  {
    hide AccelProps, ShapeOf;
  }

  lemma ShapeAt(s: Spec, k: nat)
    requires Accepts(s) && k < 5
    ensures |ShapeItems(s)| == 5 && Read(s, SHAPE_FLAGS[k]) == [ReadAs(ShapeItems(s)[k])]
  {
    hide Read, Accepts, ShapeItems, SHAPE, ReadAs;
    ShapeHasFlags(s);
    ShapeRead(s, SHAPE_FLAGS[k]);
    ReadAt(ShapeItems(s), SHAPE_FLAGS, k);
  }

  /** The board, the vCPUs and the memory; a ceiling is there exactly when it is above what the machine
      boots with. */
  lemma SizesAreTold(s: Spec)
    requires Accepts(s)
    ensures Read(s, "-machine") ==
            [ReadText("-machine", "pc-q35-11.1,kernel-irqchip=on,hpet=off,acpi=on,sata=off,smbus=off")]
    ensures Read(s, "-smp") ==
            [ReadText("-smp", Itoa(s.bootCPUs) + if s.maxCPUs > s.bootCPUs then ",maxcpus=" + Itoa(s.maxCPUs) else "")]
    ensures Read(s, "-m") ==
            [ReadText("-m", Itoa(s.sizeMB) + if s.maxMB > s.sizeMB then ",maxmem=" + Itoa(s.maxMB) + "M" else "")]
  {
    ShapeTextsAreTold(s);
    hide Read, Accepts, ShapeOf, Itoa;
    SizeTexts(s);
  }

  lemma ShapeTexts(s: Spec)
    ensures ReadAs(ShapeItems(s)[0]) == ReadText("-machine", ShapeOf(s).machine)
    ensures ReadAs(ShapeItems(s)[2]) == ReadText("-cpu", ShapeOf(s).cpu)
    ensures ReadAs(ShapeItems(s)[3]) == ReadText("-smp", ShapeOf(s).smp)
    ensures ReadAs(ShapeItems(s)[4]) == ReadText("-m", ShapeOf(s).memory)
    ensures ReadAs(ShapeItems(s)[1]) == ReadOpts("-accel", MeantAll(AccelProps(s)))
  {
    hide AccelProps, ShapeOf;
  }

  lemma SizeTexts(s: Spec)
    requires SizesOk(s)
    ensures ShapeOf(s).machine == "pc-q35-11.1,kernel-irqchip=on,hpet=off,acpi=on,sata=off,smbus=off"
    ensures ShapeOf(s).smp == Itoa(s.bootCPUs) + if s.maxCPUs > s.bootCPUs then ",maxcpus=" + Itoa(s.maxCPUs) else ""
    ensures ShapeOf(s).memory == Itoa(s.sizeMB) + if s.maxMB > s.sizeMB then ",maxmem=" + Itoa(s.maxMB) + "M" else ""
  {
    hide Itoa;
    assert Itoa(s.bootCPUs) + "" == Itoa(s.bootCPUs) && Itoa(s.sizeMB) + "" == Itoa(s.sizeMB);
    assert ",maxcpus=" + Itoa(s.maxCPUs) == ",maxcpus=" + Itoa(s.maxCPUs);
    assert Itoa(s.bootCPUs) + ",maxcpus=" + Itoa(s.maxCPUs) == Itoa(s.bootCPUs) + (",maxcpus=" + Itoa(s.maxCPUs));
    assert Itoa(s.sizeMB) + ",maxmem=" + (Itoa(s.maxMB) + "M") == Itoa(s.sizeMB) + (",maxmem=" + Itoa(s.maxMB) + "M");
  }

  /** The model the guest is shown, of a spec that names it or leaves it out. */
  function Model(s: Spec): string { if s.cpu != "" then s.cpu else if s.accel == "tcg" then "max" else "host" }

  predicate IsCpu(pieces: seq<string>, model: string) {
    && |pieces| == 4 && pieces[0] == model && "-vmx" in pieces[1..] && "-svm" in pieces[1..]
    && ("migratable=on" in pieces[1..] <==> model == "host" || model == "max")
    && ("enforce=on" in pieces[1..] <==> model != "host" && model != "max")
  }

  /** What is before the first comma of -cpu is the model; a model taken from the host may migrate, any
      other is enforced, and no guest is shown virtualisation. */
  lemma CpuIsTold(s: Spec)
    requires Accepts(s)
    ensures Read(s, "-accel") ==
            [ReadOpts("-accel", [Flag(if s.accel == "tcg" then "tcg" else "kvm")] +
                                if s.kvmFDSet != 0 then [Set("device", "/dev/fdset/" + Itoa(s.kvmFDSet))] else [])]
    ensures exists text :: Read(s, "-cpu") == [ReadText("-cpu", text)] && IsCpu(Pieces(text, ""), Model(s))
  {
    ShapeAt(s, 1);
    ShapeTexts(s);
    ShapeTextsAreTold(s);
    AccelMeant(s);
    hide Read, Accepts, AccelProps, Pieces, ShapeOf, Model, IsCpu, Join, Itoa;
    var mode := CpuTextIs(s);
    CpuPieces(Model(s), mode);
    FourPieces(Model(s), mode);
  }

  lemma FourPieces(model: string, mode: string)
    requires mode == if model == "host" || model == "max" then "migratable=on" else "enforce=on"
    ensures IsCpu([model, mode, "-vmx", "-svm"], model)
  {
    var rest := [mode, "-vmx", "-svm"];
    assert [model, mode, "-vmx", "-svm"][1..] == rest;
    assert rest[0] == mode && rest[1] == "-vmx" && rest[2] == "-svm";
    assert |"migratable=on"| == 13 && |"enforce=on"| == 10 && |"-vmx"| == |"-svm"| == 4;
  }

  lemma CpuTextIs(s: Spec) returns (mode: string)
    requires NamesOk(s)
    ensures mode == if Model(s) == "host" || Model(s) == "max" then "migratable=on" else "enforce=on"
    ensures ',' !in Model(s) && ',' !in mode && mode != ""
    ensures ShapeOf(s).cpu == Join([Model(s), mode, "-vmx", "-svm"], ",")
  {
    hide *;
    mode := if Model(s) == "host" || Model(s) == "max" then "migratable=on" else "enforce=on";
    ModelIs(s);
    CpuTextOf(s);
    CpuJoined(Model(s), mode);
    ModeIsClean();
  }

  lemma ModeIsClean()
    ensures ',' !in "migratable=on" && ',' !in "enforce=on"
  {
  }

  lemma CpuJoined(model: string, mode: string)
    ensures Join([model, mode, "-vmx", "-svm"], ",") == model + "," + (mode + ",-vmx,-svm")
  {
    JoinFour(model, mode, "-vmx", "-svm");
    hide Join;
    assert "," + ("-vmx" + "," + "-svm") == ",-vmx,-svm";
    assert mode + "," + ("-vmx" + "," + "-svm") == mode + ("," + ("-vmx" + "," + "-svm"));
  }

  lemma ModelIs(s: Spec)
    requires NamesOk(s)
    ensures Model(s) == CpuModel(s) && ',' !in Model(s)
  {
  }

  lemma CpuTextOf(s: Spec)
    ensures ShapeOf(s).cpu ==
            CpuModel(s) + "," +
            ((if CpuModel(s) == "host" || CpuModel(s) == "max" then "migratable=on" else "enforce=on") + ",-vmx,-svm")
  {
    hide CpuModel;
  }

  lemma JoinFour(a: string, b: string, c: string, d: string)
    ensures Join([a, b, c, d], ",") == a + "," + (b + "," + (c + "," + d))
  {
    assert [a, b, c, d][1..] == [b, c, d] && [b, c, d][1..] == [c, d] && [c, d][1..] == [d];
    assert Join([d], ",") == d;
    assert Join([c, d], ",") == c + "," + d;
    assert Join([b, c, d], ",") == b + "," + (c + "," + d);
  }

  lemma CpuPieces(model: string, mode: string)
    requires ',' !in model && ',' !in mode && mode != ""
    ensures Pieces(Join([model, mode, "-vmx", "-svm"], ","), "") == [model, mode, "-vmx", "-svm"]
  {
    var texts := [model, mode, "-vmx", "-svm"];
    forall i | 0 <= i < 4 ensures Escape(texts[i]) == texts[i] {
      EscapePlain(texts[i]);
    }
    hide Escape, Join, Pieces;
    assert EscapeAll(texts) == texts;
    PiecesOfJoin(texts);
  }

  lemma AccelMeant(s: Spec)
    requires NamesOk(s)
    ensures MeantAll(AccelProps(s)) ==
            [Flag(if s.accel == "tcg" then "tcg" else "kvm")] +
            if s.kvmFDSet != 0 then [Set("device", "/dev/fdset/" + Itoa(s.kvmFDSet))] else []
  {
    hide Itoa;
  }

  const BOOT_FLAGS := ["-kernel", "-initrd", "-append"]

  lemma BootHasFlags(s: Spec)
    ensures s.initrd != "" ==> HasFlags(BootItems(s), BOOT_FLAGS)
    ensures s.initrd == "" ==> HasFlags(BootItems(s), [BOOT_FLAGS[0], BOOT_FLAGS[2]])
    ensures s.initrd == "" ==> forall i | i in BootItems(s) :: ItemFlag(i) != BOOT_FLAGS[1]
    ensures forall k | 0 <= k < 3 :: BOOT_FLAGS[k] in BOOT
  {
    hide Cmdline.Line;
  }

  lemma BootAt(s: Spec)
    requires Accepts(s)
    ensures Read(s, "-kernel") == [ReadText("-kernel", s.kernel)]
    ensures Read(s, "-initrd") == if s.initrd == "" then [] else [ReadText("-initrd", s.initrd)]
    ensures Read(s, "-append") == [ReadText("-append", Cmdline.Line(s.cmdline))]
  {
    BootHasFlags(s);
    hide Read, Accepts, Cmdline.Line, HasFlags, Select, BOOT;
    BootRead(s, BOOT_FLAGS[0]);
    BootRead(s, BOOT_FLAGS[1]);
    BootRead(s, BOOT_FLAGS[2]);
    if s.initrd != "" {
      ReadAt(BootItems(s), BOOT_FLAGS, 0);
      ReadAt(BootItems(s), BOOT_FLAGS, 1);
      ReadAt(BootItems(s), BOOT_FLAGS, 2);
    } else {
      var two := [BOOT_FLAGS[0], BOOT_FLAGS[2]];
      assert BootItems(s) == [Verbatim("-kernel", s.kernel), Verbatim("-append", Cmdline.Line(s.cmdline))];
      ReadAt(BootItems(s), two, 0);
      ReadAt(BootItems(s), two, 1);
      SelectNone(BootItems(s), BOOT_FLAGS[1]);
    }
  }

  lemma IncomingAt(s: Spec)
    requires Accepts(s)
    ensures Read(s, "-incoming") == if s.incoming == "" then [] else [ReadText("-incoming", s.incoming)]
  {
    hide *;
    IsIncoming();
    BootApart("-incoming");
    BootRead(s, "-incoming");
    IncomingSelected(s);
  }

  lemma IsIncoming()
    ensures "-incoming" in INCOMING
  {
  }

  lemma IncomingSelected(s: Spec)
    ensures ReadAsAll(Select(IncomingItems(s), "-incoming")) ==
            if s.incoming == "" then [] else [ReadText("-incoming", s.incoming)]
  {
    NothingSelected("-incoming");
    SelectOne(Verbatim("-incoming", s.incoming), "-incoming");
    OneRead(Verbatim("-incoming", s.incoming));
  }

  /** What is booted: the kernel, the initrd when there is one, the kernel's command line, and the state to
      load when there is one. */
  lemma BootIsTold(s: Spec)
    requires Accepts(s)
    ensures Read(s, "-kernel") == [ReadText("-kernel", s.kernel)]
    ensures Read(s, "-initrd") == if s.initrd == "" then [] else [ReadText("-initrd", s.initrd)]
    ensures Read(s, "-append") == [ReadText("-append", Cmdline.Line(s.cmdline))]
    ensures Read(s, "-incoming") == if s.incoming == "" then [] else [ReadText("-incoming", s.incoming)]
    ensures Read(s, "-no-reboot") == [ReadBare("-no-reboot")]
    ensures Read(s, "-global") ==
            [ReadText("-global", "ICH9-LPC.disable_s3=1"), ReadText("-global", "ICH9-LPC.disable_s4=1"),
             ReadText("-global", "ICH9-LPC.acpi-pci-hotplug-with-bridge-support=off")]
  {
    hide *;
    BootAt(s);
    IncomingAt(s);
    FixedAt(s);
  }

  lemma FixedAt(s: Spec)
    requires Accepts(s)
    ensures Read(s, "-no-reboot") == [ReadBare("-no-reboot")]
    ensures Read(s, "-global") ==
            [ReadText("-global", "ICH9-LPC.disable_s3=1"), ReadText("-global", "ICH9-LPC.disable_s4=1"),
             ReadText("-global", "ICH9-LPC.acpi-pci-hotplug-with-bridge-support=off")]
  {
    hide *;
    FixedNames();
    FixedRead(s, "-no-reboot");
    FixedRead(s, "-global");
    GlobalsSelected();
    RebootSelected();
  }

  lemma GlobalsSelected()
    ensures ReadAsAll(Select(CHIPSET, "-global")) ==
            [ReadText("-global", "ICH9-LPC.disable_s3=1"), ReadText("-global", "ICH9-LPC.disable_s4=1"),
             ReadText("-global", "ICH9-LPC.acpi-pci-hotplug-with-bridge-support=off")]
  {
    hide Select;
    var globals := CHIPSET[..3];
    assert CHIPSET == globals + [CHIPSET[3]];
    SelectConcat(globals, [CHIPSET[3]], "-global");
    SelectAll(globals, "-global");
    SelectOne(CHIPSET[3], "-global");
  }

  lemma RebootSelected()
    ensures ReadAsAll(Select(CHIPSET, "-no-reboot")) == [ReadBare("-no-reboot")]
  {
    hide Select;
    SelectAt(CHIPSET, 3, "-no-reboot");
    OneRead(CHIPSET[3]);
  }

  lemma FixedNames()
    ensures "-no-reboot" in FIXED && "-global" in FIXED && "-global" != "-no-reboot"
  {
  }

  // ----- options by their keys

  /** Options that set these keys, one after another. */
  predicate Lists(o: seq<Opt>, keys: seq<string>) {
    |o| == |keys| && Distinct(keys) && forall k | 0 <= k < |o| :: o[k].Set? && o[k].key == keys[k]
  }

  lemma ListsSay(o: seq<Opt>, keys: seq<string>)
    requires Lists(o, keys)
    ensures forall k | 0 <= k < |o| :: Says(o, keys[k], o[k].value)
    ensures forall key | key !in keys :: Silent(o, key)
  {
    forall k | 0 <= k < |o| ensures Says(o, keys[k], o[k].value) {
      assert o[k] in o;
    }
  }

  /** What is said in either of two lists and not in the other is said in both together. */
  lemma Together(a: seq<Opt>, b: seq<Opt>)
    ensures forall key, value | Says(a, key, value) && Silent(b, key) :: Says(a + b, key, value)
    ensures forall key, value | Silent(a, key) && Says(b, key, value) :: Says(a + b, key, value)
    ensures forall key | Silent(a, key) && Silent(b, key) :: Silent(a + b, key)
  {
  }

  /** A word at the head of a list takes nothing from what the list says. */
  lemma HeadSays(word: string, rest: seq<Opt>, keys: seq<string>)
    requires Lists(rest, keys)
    ensures var o := [Flag(word)] + rest;
            && Headed(o, word, set k | k in keys)
            && (forall k | 0 <= k < |rest| :: Says(o, keys[k], rest[k].value))
            && forall key | key !in keys :: Silent(o, key)
  {
    ListsSay(rest, keys);
    Together([Flag(word)], rest);
    assert forall key :: Silent([Flag(word)], key);
    var o := [Flag(word)] + rest;
    forall i | 1 <= i < |o| ensures o[i].Set? && o[i].key in keys {
      assert o[i] == rest[i - 1];
    }
  }

  // ----- disks

  /** How many of the first n disks are given by a path. */
  function Paths(ds: seq<Disk>, n: nat): nat
    requires n <= |ds|
  {
    if n == 0 then 0 else Paths(ds, n - 1) + if ds[n - 1].chain == [] then 1 else 0
  }

  /** The drive of a disk given by a path: its file and its format, and each of its wishes exactly when it
      has it. */
  predicate IsDrive(o: seq<Opt>, d: Disk, i: nat) {
    && Keys(o, {"file", "if", "id", "format", "aio", "discard", "file.drop-cache", "cache.direct",
                "backing.cache.direct", "readonly", "file.locking"})
    && Says(o, "file", d.path) && Says(o, "format", d.format) && Says(o, "id", "blk" + Itoa(i)) && Says(o, "if", "none")
    && Says(o, "aio", "io_uring") && Says(o, "discard", "unmap") && Says(o, "file.drop-cache", "off")
    && (if d.readonly then Says(o, "readonly", "on") else Silent(o, "readonly"))
    && (if d.locking then Says(o, "file.locking", "on") else Silent(o, "file.locking"))
    && (if d.directOverBacking then Says(o, "cache.direct", "on") && Says(o, "backing.cache.direct", "off")
        else Silent(o, "cache.direct") && Silent(o, "backing.cache.direct"))
  }

  /** The device of a disk: on its drive, on its slot, and with its serial when it has one. */
  predicate IsDisk(o: seq<Opt>, d: Disk, i: nat) {
    && Headed(o, "virtio-blk-pci", {"drive", "disable-legacy", "addr", "serial"})
    && Says(o, "drive", "blk" + Itoa(i)) && Says(o, "disable-legacy", "on") && Says(o, "addr", "0x" + Hex(0x05 + i))
    && (if d.serial != "" then Says(o, "serial", d.serial) else Silent(o, "serial"))
  }

  const BLK_KEYS := ["drive", "disable-legacy", "addr", "serial"]

  lemma BlkMeant(d: Disk, i: nat)
    ensures MeantAll(BlkProps(d, i)) ==
            [Flag("virtio-blk-pci")] +
            ([Set("drive", NodeName(i, 0)), Set("disable-legacy", "on"), Set("addr", "0x" + Hex(SLOT_DISK_BASE + i))] +
             if d.serial != "" then [Set("serial", d.serial)] else [])
  {
    hide NodeName, Hex;
  }

  lemma BlkIsDisk(d: Disk, i: nat)
    ensures IsDisk(MeantAll(BlkProps(d, i)), d, i)
  {
    hide NodeName, Hex, Itoa, Says, Silent, MeantAll, BlkProps;
    BlkMeant(d, i);
    TopName(i);
    BlkKeys();
    var rest := [Set("drive", NodeName(i, 0)), Set("disable-legacy", "on"), Set("addr", "0x" + Hex(SLOT_DISK_BASE + i))]
      + if d.serial != "" then [Set("serial", d.serial)] else [];
    var keys := BLK_KEYS[..|rest|];
    assert Lists(rest, keys);
    HeadSays("virtio-blk-pci", rest, keys);
    assert keys[0] == "drive" && keys[1] == "disable-legacy" && keys[2] == "addr";
    assert d.serial != "" ==> keys[3] == "serial" && rest[3].value == d.serial;
    assert d.serial == "" ==> BLK_KEYS[3] !in keys;
  }

  lemma BlkKeys()
    ensures Distinct(BLK_KEYS)
  {
  }

  lemma TopName(i: nat)
    ensures NodeName(i, 0) == "blk" + Itoa(i)
  {
    assert [Itoa(i)] + DepthSuffix(0) == [Itoa(i)];
  }

  const DRIVE_KEYS := ["file", "if", "id", "format", "aio", "discard", "file.drop-cache"]
  const CACHE_KEYS := ["cache.direct", "backing.cache.direct"]
  const READONLY_KEYS := ["readonly"]
  const LOCKING_KEYS := ["file.locking"]

  function DriveBase(d: Disk, i: nat): seq<Opt> {
    [Set("file", d.path), Set("if", "none"), Set("id", NodeName(i, 0)), Set("format", d.format),
     Set("aio", "io_uring"), Set("discard", "unmap"), Set("file.drop-cache", "off")]
  }

  function DriveCache(d: Disk): seq<Opt> {
    if d.directOverBacking then [Set("cache.direct", "on"), Set("backing.cache.direct", "off")] else []
  }

  function DriveReadonly(d: Disk): seq<Opt> { if d.readonly then [Set("readonly", "on")] else [] }

  function DriveLocking(d: Disk): seq<Opt> { if d.locking then [Set("file.locking", "on")] else [] }

  lemma DriveMeant(d: Disk, i: nat)
    ensures MeantAll(DriveProps(d, i)) == DriveBase(d, i) + DriveCache(d) + DriveReadonly(d) + DriveLocking(d)
  {
    var a := [Escaped("file", d.path), Plain("if", "none"), Plain("id", NodeName(i, 0)), Plain("format", d.format),
              Plain("aio", "io_uring"), Plain("discard", "unmap"), Plain("file.drop-cache", "off")];
    var b := if d.directOverBacking then [Plain("cache.direct", "on"), Plain("backing.cache.direct", "off")] else [];
    var c := if d.readonly then [Plain("readonly", "on")] else [];
    var e := if d.locking then [Plain("file.locking", "on")] else [];
    assert DriveProps(d, i) == a + b + c + e;
    assert MeantAll(a) == DriveBase(d, i) && MeantAll(b) == DriveCache(d);
    assert MeantAll(c) == DriveReadonly(d) && MeantAll(e) == DriveLocking(d);
    hide DriveProps, NodeName, MeantAll;
    MeantConcat(a + b + c, e);
    MeantConcat(a + b, c);
    MeantConcat(a, b);
  }

  lemma MeantConcat(a: seq<Prop>, b: seq<Prop>)
    ensures MeantAll(a + b) == MeantAll(a) + MeantAll(b)
  {
    hide Meant;
  }

  lemma DriveKeysApart()
    ensures Distinct(DRIVE_KEYS) && Distinct(CACHE_KEYS) && Distinct(READONLY_KEYS) && Distinct(LOCKING_KEYS)
    ensures forall k | k in DRIVE_KEYS :: k !in CACHE_KEYS && k !in READONLY_KEYS && k !in LOCKING_KEYS
    ensures forall k | k in CACHE_KEYS :: k !in READONLY_KEYS && k !in LOCKING_KEYS
    ensures forall k | k in READONLY_KEYS :: k !in LOCKING_KEYS
  {
  }

  /** A part that is there or not, of these keys. */
  lemma PartSays(part: seq<Opt>, keys: seq<string>, there: bool)
    requires Distinct(keys) && (if there then Lists(part, keys) else part == [])
    ensures forall k | 0 <= k < |keys| && there :: Says(part, keys[k], part[k].value)
    ensures forall key | key !in keys || !there :: Silent(part, key)
  {
    if there {
      ListsSay(part, keys);
    }
  }

  lemma DrivePartsSay(d: Disk, i: nat)
    ensures forall k | 0 <= k < 7 :: Says(DriveBase(d, i), DRIVE_KEYS[k], DriveBase(d, i)[k].value)
    ensures forall key | key !in DRIVE_KEYS :: Silent(DriveBase(d, i), key)
    ensures d.directOverBacking ==>
              Says(DriveCache(d), CACHE_KEYS[0], "on") && Says(DriveCache(d), CACHE_KEYS[1], "off")
    ensures forall key | key !in CACHE_KEYS || !d.directOverBacking :: Silent(DriveCache(d), key)
    ensures d.readonly ==> Says(DriveReadonly(d), READONLY_KEYS[0], "on")
    ensures forall key | key !in READONLY_KEYS || !d.readonly :: Silent(DriveReadonly(d), key)
    ensures d.locking ==> Says(DriveLocking(d), LOCKING_KEYS[0], "on")
    ensures forall key | key !in LOCKING_KEYS || !d.locking :: Silent(DriveLocking(d), key)
  {
    hide NodeName, Says, Silent;
    DriveKeysApart();
    assert Lists(DriveBase(d, i), DRIVE_KEYS);
    hide Distinct;
    PartSays(DriveBase(d, i), DRIVE_KEYS, true);
    PartSays(DriveCache(d), CACHE_KEYS, d.directOverBacking);
    PartSays(DriveReadonly(d), READONLY_KEYS, d.readonly);
    PartSays(DriveLocking(d), LOCKING_KEYS, d.locking);
  }

  lemma DriveSays(d: Disk, i: nat)
    ensures var o := DriveBase(d, i) + DriveCache(d) + DriveReadonly(d) + DriveLocking(d);
            && (forall k | 0 <= k < 7 :: Says(o, DRIVE_KEYS[k], DriveBase(d, i)[k].value))
            && (if d.directOverBacking then Says(o, CACHE_KEYS[0], "on") && Says(o, CACHE_KEYS[1], "off")
                else Silent(o, CACHE_KEYS[0]) && Silent(o, CACHE_KEYS[1]))
            && (if d.readonly then Says(o, READONLY_KEYS[0], "on") else Silent(o, READONLY_KEYS[0]))
            && (if d.locking then Says(o, LOCKING_KEYS[0], "on") else Silent(o, LOCKING_KEYS[0]))
  {
    DrivePartsSay(d, i);
    DriveKeysApart();
    hide Says, Silent, Distinct, DRIVE_KEYS, CACHE_KEYS, READONLY_KEYS, LOCKING_KEYS, DriveBase, DriveCache,
         DriveReadonly, DriveLocking;
    KeyCounts();
    var a, b, c, e := DriveBase(d, i), DriveCache(d), DriveReadonly(d), DriveLocking(d);
    Together(a, b);
    Together(a + b, c);
    Together(a + b + c, e);
    assert CACHE_KEYS[0] in CACHE_KEYS && CACHE_KEYS[1] in CACHE_KEYS;
    assert READONLY_KEYS[0] in READONLY_KEYS && LOCKING_KEYS[0] in LOCKING_KEYS;
  }

  lemma KeyCounts()
    ensures |DRIVE_KEYS| == 7 && |CACHE_KEYS| == 2 && |READONLY_KEYS| == 1 && |LOCKING_KEYS| == 1
    ensures forall d, i :: |DriveBase(d, i)| == 7 && forall k | 0 <= k < 7 :: DriveBase(d, i)[k].Set?
  {
  }

  lemma DriveHasKeys(d: Disk, i: nat)
    ensures Keys(DriveBase(d, i) + DriveCache(d) + DriveReadonly(d) + DriveLocking(d),
                 {"file", "if", "id", "format", "aio", "discard", "file.drop-cache", "cache.direct",
                  "backing.cache.direct", "readonly", "file.locking"})
  {
    hide NodeName;
  }

  lemma DriveIsDrive(d: Disk, i: nat)
    ensures IsDrive(MeantAll(DriveProps(d, i)), d, i)
  {
    hide NodeName, Itoa, Says, Silent, Keys, MeantAll, DriveProps;
    DriveMeant(d, i);
    TopName(i);
    DriveSays(d, i);
    DriveHasKeys(d, i);
    hide DriveCache, DriveReadonly, DriveLocking;
    assert DRIVE_KEYS[0] == "file" && DRIVE_KEYS[1] == "if" && DRIVE_KEYS[2] == "id" && DRIVE_KEYS[3] == "format";
    assert DRIVE_KEYS[4] == "aio" && DRIVE_KEYS[5] == "discard" && DRIVE_KEYS[6] == "file.drop-cache";
  }

  // ----- the lists of devices and drives

  /** How many devices come before the disks'. */
  function FirstDisk(s: Spec): nat {
    3 + (if s.vsockCID != 0 then 1 else 0) + (if s.maxMB > s.sizeMB then 1 else 0) +
    (if s.hotplugDisks > 0 then 1 else 0)
  }

  function MachineDevices(s: Spec): seq<Item> {
    FixedDeviceItems() + VsockItems(s) +
    (if s.maxMB > s.sizeMB then [Listed("-device", VirtioMemProps())] else []) + HotplugItems(s)
  }

  lemma GrowthSelected(s: Spec)
    ensures Select(GrowthItems(s), "-device") ==
            if s.maxMB > s.sizeMB then [Listed("-device", VirtioMemProps())] else []
    ensures Select(GrowthItems(s), "-object") ==
            if s.maxMB > s.sizeMB then [Listed("-object", GrowthProps(s))] else []
  {
    hide VirtioMemProps, GrowthProps, Select;
    NothingSelected("-device");
    NothingSelected("-object");
    if s.maxMB > s.sizeMB {
      SelectAt(GrowthItems(s), 1, "-device");
      SelectAt(GrowthItems(s), 0, "-object");
    }
  }

  lemma DevicesSelected(s: Spec)
    ensures Select(DeviceItems(s), "-device") == MachineDevices(s) && |MachineDevices(s)| == FirstDisk(s)
    ensures Select(DeviceItems(s), "-object") ==
            if s.maxMB > s.sizeMB then [Listed("-object", GrowthProps(s))] else []
  {
    hide VMGENID, RngProps, BalloonProps, VsockProps, VirtioMemProps, ScsiProps, GrowthProps, Select;
    forall flag
      ensures Select(DeviceItems(s), flag) ==
              Select(FixedDeviceItems(), flag) + Select(VsockItems(s), flag) + Select(GrowthItems(s), flag) +
              Select(HotplugItems(s), flag)
    {
      SelectConcat(FixedDeviceItems(), VsockItems(s), flag);
      SelectConcat(FixedDeviceItems() + VsockItems(s), GrowthItems(s), flag);
      SelectConcat(FixedDeviceItems() + VsockItems(s) + GrowthItems(s), HotplugItems(s), flag);
    }
    GrowthSelected(s);
    SelectAll(FixedDeviceItems(), "-device");
    SelectAll(VsockItems(s), "-device");
    SelectAll(HotplugItems(s), "-device");
    SelectNone(FixedDeviceItems(), "-object");
    SelectNone(VsockItems(s), "-object");
    SelectNone(HotplugItems(s), "-object");
  }

  lemma DiskSelected(d: Disk, i: nat)
    ensures Select(DiskItems(d, i), "-device") == [Listed("-device", BlkProps(d, i))]
    ensures Select(DiskItems(d, i), "-drive") == if d.chain == [] then [Listed("-drive", DriveProps(d, i))] else []
  {
    hide BlkProps, DriveProps, ChainNodes, Select;
    var images := if d.chain != [] then Blocks(ChainNodes(d, i, 0)) else [Listed("-drive", DriveProps(d, i))];
    SelectConcat(images, [Listed("-device", BlkProps(d, i))], "-device");
    SelectConcat(images, [Listed("-device", BlkProps(d, i))], "-drive");
    SelectOne(Listed("-device", BlkProps(d, i)), "-device");
    SelectOne(Listed("-device", BlkProps(d, i)), "-drive");
    if d.chain != [] {
      BlockFlags(ChainNodes(d, i, 0));
      SelectNone(images, "-device");
      SelectNone(images, "-drive");
    } else {
      SelectOne(Listed("-drive", DriveProps(d, i)), "-device");
      SelectOne(Listed("-drive", DriveProps(d, i)), "-drive");
    }
  }

  lemma {:induction false} DisksSelected(ds: seq<Disk>, n: nat)
    requires n <= |ds|
    ensures |Select(DisksItems(ds, n), "-device")| == n
    ensures forall i | 0 <= i < n :: Select(DisksItems(ds, n), "-device")[i] == Listed("-device", BlkProps(ds[i], i))
    ensures |Select(DisksItems(ds, n), "-drive")| == Paths(ds, n)
    ensures forall i | 0 <= i < n && ds[i].chain == [] ::
              Paths(ds, i) < Paths(ds, n) &&
              Select(DisksItems(ds, n), "-drive")[Paths(ds, i)] == Listed("-drive", DriveProps(ds[i], i))
  {
    hide BlkProps, DriveProps, DiskItems, Select;
    if n == 0 {
      NothingSelected("-device");
      NothingSelected("-drive");
    } else {
      DisksSelected(ds, n - 1);
      DiskSelected(ds[n - 1], n - 1);
      SelectConcat(DisksItems(ds, n - 1), DiskItems(ds[n - 1], n - 1), "-device");
      SelectConcat(DisksItems(ds, n - 1), DiskItems(ds[n - 1], n - 1), "-drive");
    }
  }

  lemma NICSelected(n: NIC, i: nat)
    ensures Select(NICItems(n, i), "-device") == [Listed("-device", NetProps(n, i))]
    ensures Select(NICItems(n, i), "-netdev") == [Listed("-netdev", NetdevProps(n, i))]
  {
    hide NetProps, NetdevProps, Select;
    SelectAt(NICItems(n, i), 1, "-device");
    SelectAt(NICItems(n, i), 0, "-netdev");
  }

  lemma {:induction false} NICsSelected(ns: seq<NIC>, n: nat)
    requires n <= |ns|
    ensures |Select(NICsItems(ns, n), "-device")| == n == |Select(NICsItems(ns, n), "-netdev")|
    ensures forall i | 0 <= i < n :: Select(NICsItems(ns, n), "-device")[i] == Listed("-device", NetProps(ns[i], i))
    ensures forall i | 0 <= i < n :: Select(NICsItems(ns, n), "-netdev")[i] == Listed("-netdev", NetdevProps(ns[i], i))
  {
    hide NetProps, NetdevProps, NICItems, Select;
    if n == 0 {
      NothingSelected("-device");
      NothingSelected("-netdev");
    } else {
      NICsSelected(ns, n - 1);
      NICSelected(ns[n - 1], n - 1);
      SelectConcat(NICsItems(ns, n - 1), NICItems(ns[n - 1], n - 1), "-device");
      SelectConcat(NICsItems(ns, n - 1), NICItems(ns[n - 1], n - 1), "-netdev");
    }
  }

  lemma DeviceList(s: Spec)
    requires Accepts(s)
    ensures Read(s, "-device") ==
            ReadAsAll(Select(DeviceItems(s), "-device") + Select(DisksItems(s.disks, |s.disks|), "-device") +
                      Select(NICsItems(s.nics, |s.nics|), "-device"))
    ensures Read(s, "-drive") == ReadAsAll(Select(DisksItems(s.disks, |s.disks|), "-drive"))
    ensures Read(s, "-netdev") == ReadAsAll(Select(NICsItems(s.nics, |s.nics|), "-netdev"))
  {
    hide *;
    DeviceNames();
    forall flag | flag in ["-device", "-drive", "-netdev"]
      ensures Read(s, flag) ==
              ReadAsAll(Select(DeviceItems(s), flag) + Select(DisksItems(s.disks, |s.disks|), flag) +
                        Select(NICsItems(s.nics, |s.nics|), flag))
      ensures flag !in DEVICES ==> Select(DeviceItems(s), flag) == []
      ensures flag !in DISKS ==> Select(DisksItems(s.disks, |s.disks|), flag) == []
      ensures flag !in NICS ==> Select(NICsItems(s.nics, |s.nics|), flag) == []
    {
      DeviceApart(flag);
      SilentParts(s, flag);
      ReadIs(s, flag);
      PartsAre(s, flag);
    }
    assert "-device" in ["-device", "-drive", "-netdev"] && "-drive" in ["-device", "-drive", "-netdev"];
    assert "-netdev" in ["-device", "-drive", "-netdev"];
  }

  lemma DeviceNames()
    ensures forall flag | flag in ["-device", "-drive", "-netdev"] ::
              (flag in DEVICES || flag in DISKS || flag in NICS) &&
              flag !in CONSOLE && flag !in MONITORS && flag !in SETS
    ensures "-drive" !in DEVICES && "-drive" !in NICS && "-netdev" !in DEVICES && "-netdev" !in DISKS
  {
  }

  lemma ListedIsRead(flag: string, props: seq<Prop>)
    ensures ReadAs(Listed(flag, props)) == ReadOpts(flag, MeantAll(props))
  {
  }

  /** An item of a list that comes after another is read after it. */
  lemma SecondOfTwo(rs: seq<Reading>, a: seq<Item>, b: seq<Item>, k: nat, x: Item)
    requires rs == ReadAsAll(a + b) && k < |b| && b[k] == x
    ensures |rs| == |a| + |b| && rs[|a| + k] == ReadAs(x)
  {
    hide ReadAs, ReadAsAll;
    assert (a + b)[|a| + k] == x;
  }

  lemma SecondOfThree(rs: seq<Reading>, a: seq<Item>, b: seq<Item>, c: seq<Item>, k: nat, x: Item)
    requires rs == ReadAsAll(a + b + c) && k < |b| && b[k] == x
    ensures |rs| == |a| + |b| + |c| && rs[|a| + k] == ReadAs(x)
  {
    hide ReadAs, ReadAsAll;
    assert (a + b + c)[|a| + k] == x;
  }

  lemma FirstOf(rs: seq<Reading>, a: seq<Item>, b: seq<Item>)
    requires rs == ReadAsAll(a + b)
    ensures |rs| == |a| + |b| && forall k | 0 <= k < |a| :: rs[k] == ReadAs(a[k])
  {
    hide ReadAs, ReadAsAll;
    assert forall k | 0 <= k < |a| :: (a + b)[k] == a[k];
  }

  /** Which items the devices are read from. */
  lemma DevicesRead(s: Spec)
    requires Accepts(s)
    ensures |Read(s, "-device")| == FirstDisk(s) + |s.disks| + |s.nics| && |MachineDevices(s)| == FirstDisk(s)
    ensures forall k | 0 <= k < FirstDisk(s) :: Read(s, "-device")[k] == ReadAs(MachineDevices(s)[k])
  {
    hide *;
    DeviceList(s);
    DevicesSelected(s);
    DisksSelected(s.disks, |s.disks|);
    NICsSelected(s.nics, |s.nics|);
    var a, b, c := Select(DeviceItems(s), "-device"), Select(DisksItems(s.disks, |s.disks|), "-device"),
      Select(NICsItems(s.nics, |s.nics|), "-device");
    assert a + (b + c) == a + b + c;
    FirstOf(Read(s, "-device"), a, b + c);
  }

  lemma DiskRead(s: Spec, i: nat)
    requires Accepts(s) && i < |s.disks|
    ensures |Read(s, "-device")| == FirstDisk(s) + |s.disks| + |s.nics|
    ensures Read(s, "-device")[FirstDisk(s) + i] == ReadOpts("-device", MeantAll(BlkProps(s.disks[i], i)))
  {
    hide *;
    var a, b, c := Select(DeviceItems(s), "-device"), Select(DisksItems(s.disks, |s.disks|), "-device"),
      Select(NICsItems(s.nics, |s.nics|), "-device");
    DeviceList(s);
    DevicesSelected(s);
    DisksSelected(s.disks, |s.disks|);
    NICsSelected(s.nics, |s.nics|);
    SecondOfThree(Read(s, "-device"), a, b, c, i, Listed("-device", BlkProps(s.disks[i], i)));
    ListedIsRead("-device", BlkProps(s.disks[i], i));
  }

  lemma NICRead(s: Spec, i: nat)
    requires Accepts(s) && i < |s.nics|
    ensures |Read(s, "-device")| == FirstDisk(s) + |s.disks| + |s.nics|
    ensures Read(s, "-device")[FirstDisk(s) + |s.disks| + i] == ReadOpts("-device", MeantAll(NetProps(s.nics[i], i)))
  {
    hide *;
    var a, b, c := Select(DeviceItems(s), "-device"), Select(DisksItems(s.disks, |s.disks|), "-device"),
      Select(NICsItems(s.nics, |s.nics|), "-device");
    DeviceList(s);
    DevicesSelected(s);
    DisksSelected(s.disks, |s.disks|);
    NICsSelected(s.nics, |s.nics|);
    SecondOfTwo(Read(s, "-device"), a + b, c, i, Listed("-device", NetProps(s.nics[i], i)));
    ListedIsRead("-device", NetProps(s.nics[i], i));
  }

  lemma DrivesRead(s: Spec)
    requires Accepts(s)
    ensures |Read(s, "-drive")| == Paths(s.disks, |s.disks|)
    ensures forall i | 0 <= i < |s.disks| && s.disks[i].chain == [] ::
              Paths(s.disks, i) < |Read(s, "-drive")| &&
              Read(s, "-drive")[Paths(s.disks, i)] == ReadOpts("-drive", MeantAll(DriveProps(s.disks[i], i)))
    ensures |Read(s, "-netdev")| == |s.nics|
    ensures forall i | 0 <= i < |s.nics| ::
              Read(s, "-netdev")[i] == ReadOpts("-netdev", MeantAll(NetdevProps(s.nics[i], i)))
  {
    hide *;
    DeviceList(s);
    DisksSelected(s.disks, |s.disks|);
    NICsSelected(s.nics, |s.nics|);
    forall flag, props ensures ReadAs(Listed(flag, props)) == ReadOpts(flag, MeantAll(props)) {
      ListedIsRead(flag, props);
    }
  }

  /** QEMU is given as many devices as the machine has, and of each disk, in its order, the device and, when
      it is given by a path, the drive. */
  lemma DisksAreTold(s: Spec, i: nat)
    requires Accepts(s) && i < |s.disks|
    ensures |Read(s, "-device")| == FirstDisk(s) + |s.disks| + |s.nics|
    ensures IsDisk(OptsAt(s, "-device", FirstDisk(s) + i), s.disks[i], i)
    ensures |Read(s, "-drive")| == Paths(s.disks, |s.disks|)
    ensures s.disks[i].chain == [] ==> IsDrive(OptsAt(s, "-drive", Paths(s.disks, i)), s.disks[i], i)
  {
    hide *;
    DiskRead(s, i);
    DrivesRead(s);
    BlkIsDisk(s.disks[i], i);
    DriveIsDrive(s.disks[i], i);
    AtIs(s, "-device", FirstDisk(s) + i);
    AtIs(s, "-drive", Paths(s.disks, i));
  }

  lemma AtIs(s: Spec, flag: string, k: nat)
    ensures k < |Read(s, flag)| && Read(s, flag)[k].ReadOpts? ==> OptsAt(s, flag, k) == Read(s, flag)[k].opts
  {
    hide Read;
  }

  // ----- NICs

  /** The backend of a NIC: its tap's descriptor, in the kernel, and the vhost descriptor when it has one. */
  predicate IsTap(o: seq<Opt>, n: NIC, i: nat) {
    && Headed(o, "tap", {"id", "fd", "vhost", "vhostfd"})
    && Says(o, "id", "net" + Itoa(i)) && Says(o, "fd", Itoa(n.tapFD)) && Says(o, "vhost", "on")
    && (if n.vhostFD != 0 then Says(o, "vhostfd", Itoa(n.vhostFD)) else Silent(o, "vhostfd"))
  }

  /** The device of a NIC: on its backend, on its slot, with its address, and with an MTU when it has one. */
  predicate IsNIC(o: seq<Opt>, n: NIC, i: nat) {
    && Headed(o, "virtio-net-pci", {"netdev", "mac", "romfile", "disable-legacy", "addr", "host_mtu"})
    && Says(o, "netdev", "net" + Itoa(i)) && Says(o, "mac", n.mac) && Says(o, "romfile", "")
    && Says(o, "disable-legacy", "on") && Says(o, "addr", "0x" + Hex(0x10 + i))
    && (if n.mtu > 0 then Says(o, "host_mtu", Itoa(n.mtu)) else Silent(o, "host_mtu"))
  }

  const TAP_KEYS := ["id", "fd", "vhost", "vhostfd"]
  const NET_KEYS := ["netdev", "mac", "romfile", "disable-legacy", "addr", "host_mtu"]

  lemma NICKeys()
    ensures Distinct(TAP_KEYS) && Distinct(NET_KEYS)
  {
  }

  lemma TapMeant(n: NIC, i: nat)
    ensures MeantAll(NetdevProps(n, i)) ==
            [Flag("tap")] +
            ([Set("id", "net" + Itoa(i)), Set("fd", Itoa(n.tapFD)), Set("vhost", "on")] +
             if n.vhostFD != 0 then [Set("vhostfd", Itoa(n.vhostFD))] else [])
  {
    hide Itoa;
  }

  lemma TapIsTap(n: NIC, i: nat)
    ensures IsTap(MeantAll(NetdevProps(n, i)), n, i)
  {
    hide Itoa, Says, Silent, MeantAll, NetdevProps;
    TapMeant(n, i);
    NICKeys();
    var rest := [Set("id", "net" + Itoa(i)), Set("fd", Itoa(n.tapFD)), Set("vhost", "on")] +
      if n.vhostFD != 0 then [Set("vhostfd", Itoa(n.vhostFD))] else [];
    var keys := TAP_KEYS[..|rest|];
    assert Lists(rest, keys);
    HeadSays("tap", rest, keys);
    assert keys[0] == "id" && keys[1] == "fd" && keys[2] == "vhost";
    assert n.vhostFD != 0 ==> keys[3] == "vhostfd" && rest[3].value == Itoa(n.vhostFD);
    assert n.vhostFD == 0 ==> TAP_KEYS[3] !in keys;
  }

  lemma NetMeant(n: NIC, i: nat)
    ensures MeantAll(NetProps(n, i)) ==
            [Flag("virtio-net-pci")] +
            ([Set("netdev", "net" + Itoa(i)), Set("mac", n.mac), Set("romfile", ""), Set("disable-legacy", "on"),
              Set("addr", "0x" + Hex(SLOT_NIC_BASE + i))] +
             if n.mtu > 0 then [Set("host_mtu", Itoa(n.mtu))] else [])
  {
    hide Itoa, Hex;
  }

  lemma NetIsNIC(n: NIC, i: nat)
    ensures IsNIC(MeantAll(NetProps(n, i)), n, i)
  {
    hide Itoa, Hex, Says, Silent, MeantAll, NetProps;
    NetMeant(n, i);
    NICKeys();
    var rest := [Set("netdev", "net" + Itoa(i)), Set("mac", n.mac), Set("romfile", ""), Set("disable-legacy", "on"),
                 Set("addr", "0x" + Hex(SLOT_NIC_BASE + i))] +
      if n.mtu > 0 then [Set("host_mtu", Itoa(n.mtu))] else [];
    var keys := NET_KEYS[..|rest|];
    assert Lists(rest, keys);
    HeadSays("virtio-net-pci", rest, keys);
    assert keys[0] == "netdev" && keys[1] == "mac" && keys[2] == "romfile" && keys[3] == "disable-legacy";
    assert keys[4] == "addr";
    assert n.mtu > 0 ==> keys[5] == "host_mtu" && rest[5].value == Itoa(n.mtu);
    assert n.mtu <= 0 ==> NET_KEYS[5] !in keys;
  }

  /** Of each NIC, in its order, QEMU is given the backend and the device. */
  lemma NICsAreTold(s: Spec, i: nat)
    requires Accepts(s) && i < |s.nics|
    ensures |Read(s, "-device")| == FirstDisk(s) + |s.disks| + |s.nics| && |Read(s, "-netdev")| == |s.nics|
    ensures IsNIC(OptsAt(s, "-device", FirstDisk(s) + |s.disks| + i), s.nics[i], i)
    ensures IsTap(OptsAt(s, "-netdev", i), s.nics[i], i)
  {
    hide *;
    NICRead(s, i);
    DrivesRead(s);
    NetIsNIC(s.nics[i], i);
    TapIsTap(s.nics[i], i);
    AtIs(s, "-device", FirstDisk(s) + |s.disks| + i);
    AtIs(s, "-netdev", i);
  }

  // ----- the machine's own devices

  predicate IsVsock(o: seq<Opt>, s: Spec) {
    && Headed(o, "vhost-vsock-pci", {"guest-cid", "disable-legacy", "addr", "vhostfd"})
    && Says(o, "guest-cid", Itoa(s.vsockCID)) && Says(o, "disable-legacy", "on") && Says(o, "addr", "0x" + Hex(0x02))
    && (if s.vsockFD != 0 then Says(o, "vhostfd", Itoa(s.vsockFD)) else Silent(o, "vhostfd"))
  }

  const VSOCK_KEYS := ["guest-cid", "disable-legacy", "addr", "vhostfd"]

  lemma VsockKeys()
    ensures Distinct(VSOCK_KEYS)
  {
  }

  lemma VsockMeant(s: Spec)
    ensures MeantAll(VsockProps(s)) ==
            [Flag("vhost-vsock-pci")] +
            ([Set("guest-cid", Itoa(s.vsockCID)), Set("disable-legacy", "on"), Set("addr", "0x" + Hex(SLOT_VSOCK))] +
             if s.vsockFD != 0 then [Set("vhostfd", Itoa(s.vsockFD))] else [])
  {
    hide Itoa, Hex;
  }

  lemma VsockIsVsock(s: Spec)
    ensures IsVsock(MeantAll(VsockProps(s)), s)
  {
    hide Itoa, Hex, Says, Silent, MeantAll, VsockProps;
    VsockMeant(s);
    VsockKeys();
    var rest := [Set("guest-cid", Itoa(s.vsockCID)), Set("disable-legacy", "on"), Set("addr", "0x" + Hex(SLOT_VSOCK))] +
      if s.vsockFD != 0 then [Set("vhostfd", Itoa(s.vsockFD))] else [];
    var keys := VSOCK_KEYS[..|rest|];
    assert Lists(rest, keys);
    HeadSays("vhost-vsock-pci", rest, keys);
    assert keys[0] == "guest-cid" && keys[1] == "disable-legacy" && keys[2] == "addr";
    assert s.vsockFD != 0 ==> keys[3] == "vhostfd" && rest[3].value == Itoa(s.vsockFD);
    assert s.vsockFD == 0 ==> VSOCK_KEYS[3] !in keys;
  }

  /** The devices that are the same in every machine that has them. */
  const GENERATION: seq<Opt> := [Flag("vmgenid"), Set("guid", "auto")]

  function Rng(): seq<Opt> { [Flag("virtio-rng-pci"), Set("disable-legacy", "on"), Set("addr", "0x" + Hex(0x03))] }

  function Balloon(): seq<Opt> {
    [Flag("virtio-balloon-pci"), Set("free-page-reporting", "on"), Set("deflate-on-oom", "on"),
     Set("disable-legacy", "on"), Set("addr", "0x" + Hex(0x04))]
  }

  function Growth(): seq<Opt> {
    [Flag("virtio-mem-pci"), Set("id", "vmem0"), Set("memdev", "mem.growth"), Set("requested-size", "0"),
     Set("disable-legacy", "on"), Set("addr", "0x" + Hex(0x1e))]
  }

  function Controller(): seq<Opt> {
    [Flag("virtio-scsi-pci"), Set("id", "scsi0"), Set("disable-legacy", "on"), Set("addr", "0x" + Hex(0x1a))]
  }

  lemma OwnMeant()
    ensures MeantAll(VMGENID) == GENERATION && MeantAll(RngProps()) == Rng() && MeantAll(BalloonProps()) == Balloon()
  {
    hide Hex;
  }

  lemma OptionalMeant()
    ensures MeantAll(VirtioMemProps()) == Growth() && MeantAll(ScsiProps()) == Controller()
  {
    hide Hex;
  }

  /** What the machine has besides disks and NICs: the generation id, the random numbers and the balloon
      always; and in this order a vsock when it has a context id, memory that can be added when the ceiling
      is above what it boots with, and a controller for disks to come when it is to have one. */
  lemma DevicesAreTold(s: Spec)
    requires Accepts(s)
    ensures |Read(s, "-device")| == FirstDisk(s) + |s.disks| + |s.nics|
    ensures OptsAt(s, "-device", 0) == GENERATION
    ensures OptsAt(s, "-device", 1) == Rng() && OptsAt(s, "-device", 2) == Balloon()
    ensures var vsock, growth := if s.vsockCID != 0 then 1 else 0, if s.maxMB > s.sizeMB then 1 else 0;
            && (s.vsockCID != 0 ==> IsVsock(OptsAt(s, "-device", 3), s))
            && (s.maxMB > s.sizeMB ==> OptsAt(s, "-device", 3 + vsock) == Growth())
            && (s.hotplugDisks > 0 ==> OptsAt(s, "-device", 3 + vsock + growth) == Controller())
  {
    hide *;
    DevicesRead(s);
    MachineDevicesAre(s);
    OwnMeant();
    OptionalMeant();
    VsockIsVsock(s);
    forall flag, props ensures ReadAs(Listed(flag, props)) == ReadOpts(flag, MeantAll(props)) {
      ListedIsRead(flag, props);
    }
    forall k: nat
      ensures k < |Read(s, "-device")| && Read(s, "-device")[k].ReadOpts? ==>
                OptsAt(s, "-device", k) == Read(s, "-device")[k].opts
    {
      AtIs(s, "-device", k);
    }
  }

  lemma MachineDevicesAre(s: Spec)
    ensures var items := MachineDevices(s);
            var vsock, growth := if s.vsockCID != 0 then 1 else 0, if s.maxMB > s.sizeMB then 1 else 0;
            && |items| == FirstDisk(s)
            && items[0] == Listed("-device", VMGENID) && items[1] == Listed("-device", RngProps())
            && items[2] == Listed("-device", BalloonProps())
            && (s.vsockCID != 0 ==> items[3] == Listed("-device", VsockProps(s)))
            && (s.maxMB > s.sizeMB ==> items[3 + vsock] == Listed("-device", VirtioMemProps()))
            && (s.hotplugDisks > 0 ==> items[3 + vsock + growth] == Listed("-device", ScsiProps()))
            && FirstDisk(s) == 3 + vsock + growth + (if s.hotplugDisks > 0 then 1 else 0)
  {
    hide VMGENID, RngProps, BalloonProps, VsockProps, VirtioMemProps, ScsiProps;
  }

  // ----- objects, character devices, monitors and descriptors

  /** How many of the first n monitors are on a descriptor. */
  function OnDescriptor(ms: seq<Monitor>, n: nat): nat
    requires n <= |ms|
  {
    if n == 0 then 0 else OnDescriptor(ms, n - 1) + if ms[n - 1].socket == "" then 1 else 0
  }

  predicate HasSocket(m: Monitor) { m.socket != "" }

  /** And how many on a socket of their own. */
  function OnSocket(ms: seq<Monitor>, n: nat): nat
    requires n <= |ms|
  {
    if n == 0 then 0 else OnSocket(ms, n - 1) + if HasSocket(ms[n - 1]) then 1 else 0
  }

  /** How many descriptors the first n sets have. */
  function Descriptors(fs: seq<FDSet>, n: nat): nat
    requires n <= |fs|
  {
    if n == 0 then 0 else Descriptors(fs, n - 1) + |fs[n - 1].fds|
  }

  lemma MonitorSelected(m: Monitor, i: nat)
    ensures Select(MonitorItems(m, i), "-qmp") == if m.socket != "" then [Socket(m.socket)] else []
    ensures Select(MonitorItems(m, i), "-chardev") ==
            if m.socket == "" then [Listed("-chardev", QmpChardevProps(m, i))] else []
    ensures Select(MonitorItems(m, i), "-object") ==
            if m.socket == "" then [Listed("-object", QmpMonitorProps(i))] else []
  {
    hide QmpChardevProps, QmpMonitorProps, Select;
    if m.socket != "" {
      SelectOne(Socket(m.socket), "-qmp");
      SelectOne(Socket(m.socket), "-chardev");
      SelectOne(Socket(m.socket), "-object");
    } else {
      SelectNone(MonitorItems(m, i), "-qmp");
      SelectAt(MonitorItems(m, i), 0, "-chardev");
      SelectAt(MonitorItems(m, i), 1, "-object");
    }
  }

  lemma {:induction false} SocketsSelected(ms: seq<Monitor>, n: nat)
    requires n <= |ms|
    ensures var items := Select(MonitorsItems(ms, n), "-qmp");
            |items| == OnSocket(ms, n) &&
            forall i | 0 <= i < n && HasSocket(ms[i]) ::
              OnSocket(ms, i) < |items| && items[OnSocket(ms, i)] == Socket(ms[i].socket)
  {
    hide MonitorItems, Select, HasSocket;
    if n == 0 {
      NothingSelected("-qmp");
    } else {
      SocketsSelected(ms, n - 1);
      var before, own := Select(MonitorsItems(ms, n - 1), "-qmp"), Select(MonitorItems(ms[n - 1], n - 1), "-qmp");
      SocketSelected(ms[n - 1], n - 1);
      SelectConcat(MonitorsItems(ms, n - 1), MonitorItems(ms[n - 1], n - 1), "-qmp");
      assert Select(MonitorsItems(ms, n), "-qmp") == before + own;
    }
  }

  lemma SocketSelected(m: Monitor, i: nat)
    ensures Select(MonitorItems(m, i), "-qmp") == if HasSocket(m) then [Socket(m.socket)] else []
  {
    hide QmpChardevProps, QmpMonitorProps, Select, MonitorItems;
    MonitorSelected(m, i);
  }

  lemma {:induction false} ChardevsSelected(ms: seq<Monitor>, n: nat)
    requires n <= |ms|
    ensures var items := Select(MonitorsItems(ms, n), "-chardev");
            |items| == OnDescriptor(ms, n) &&
            forall i | 0 <= i < n && ms[i].socket == "" ::
              OnDescriptor(ms, i) < |items| &&
              items[OnDescriptor(ms, i)] == Listed("-chardev", QmpChardevProps(ms[i], i))
  {
    hide MonitorItems, Select, QmpChardevProps, QmpMonitorProps;
    if n == 0 {
      NothingSelected("-chardev");
    } else {
      ChardevsSelected(ms, n - 1);
      MonitorSelected(ms[n - 1], n - 1);
      SelectConcat(MonitorsItems(ms, n - 1), MonitorItems(ms[n - 1], n - 1), "-chardev");
    }
  }

  lemma {:induction false} ObjectsSelected(ms: seq<Monitor>, n: nat)
    requires n <= |ms|
    ensures var items := Select(MonitorsItems(ms, n), "-object");
            |items| == OnDescriptor(ms, n) &&
            forall i | 0 <= i < n && ms[i].socket == "" ::
              OnDescriptor(ms, i) < |items| && items[OnDescriptor(ms, i)] == Listed("-object", QmpMonitorProps(i))
  {
    hide MonitorItems, Select, QmpChardevProps, QmpMonitorProps;
    if n == 0 {
      NothingSelected("-object");
    } else {
      ObjectsSelected(ms, n - 1);
      MonitorSelected(ms[n - 1], n - 1);
      SelectConcat(MonitorsItems(ms, n - 1), MonitorItems(ms[n - 1], n - 1), "-object");
    }
  }

  lemma {:induction false} FDsListed(f: FDSet, n: nat)
    requires n <= |f.fds|
    ensures |FDItems(f, n)| == n
    ensures forall k | 0 <= k < n :: FDItems(f, n)[k] == Listed("-add-fd", FDProps(f.id, f.fds[k]))
  {
    hide FDProps;
    if n > 0 {
      FDsListed(f, n - 1);
    }
  }

  lemma {:induction false} SetsLength(fs: seq<FDSet>, n: nat)
    requires n <= |fs|
    ensures |FDSetsItems(fs, n)| == Descriptors(fs, n)
  {
    hide FDProps, FDItems;
    if n > 0 {
      SetsLength(fs, n - 1);
      FDsListed(fs[n - 1], |fs[n - 1].fds|);
    }
  }

  lemma {:induction false} SetListed(fs: seq<FDSet>, n: nat, i: nat, k: nat)
    requires i < n <= |fs| && k < |fs[i].fds|
    ensures |FDSetsItems(fs, n)| == Descriptors(fs, n) && Descriptors(fs, i) + k < Descriptors(fs, n)
    ensures FDSetsItems(fs, n)[Descriptors(fs, i) + k] == Listed("-add-fd", FDProps(fs[i].id, fs[i].fds[k]))
    decreases n
  {
    hide FDProps, FDItems;
    SetsLength(fs, n);
    SetsLength(fs, n - 1);
    if i == n - 1 {
      FDsListed(fs[i], |fs[i].fds|);
    } else {
      SetListed(fs, n - 1, i, k);
    }
  }

  lemma OtherLists(s: Spec)
    requires Accepts(s)
    ensures Read(s, "-object") ==
            ReadAsAll(Select(DeviceItems(s), "-object") + Select(MonitorsItems(s.monitors, |s.monitors|), "-object"))
    ensures Read(s, "-chardev") ==
            ReadAsAll(Select(ConsoleItems(s), "-chardev") + Select(MonitorsItems(s.monitors, |s.monitors|), "-chardev"))
    ensures Read(s, "-qmp") == ReadAsAll(Select(MonitorsItems(s.monitors, |s.monitors|), "-qmp"))
    ensures Read(s, "-serial") == ReadAsAll(Select(ConsoleItems(s), "-serial"))
    ensures Read(s, "-add-fd") == ReadAsAll(FDSetsItems(s.fdSets, |s.fdSets|))
  {
    hide *;
    OtherNames();
    OtherParts(s, "-object");
    OtherParts(s, "-chardev");
    OtherParts(s, "-qmp");
    OtherParts(s, "-serial");
    OtherParts(s, "-add-fd");
    SetFlags(s.fdSets, |s.fdSets|);
    AllAddFDs(FDSetsItems(s.fdSets, |s.fdSets|));
  }

  lemma AllAddFDs(items: seq<Item>)
    requires Flagged(items, SETS)
    ensures Select(items, "-add-fd") == items
  {
    SelectAll(items, "-add-fd");
  }

  lemma OtherParts(s: Spec, flag: string)
    requires Accepts(s) && (flag in DEVICES || flag in CONSOLE || flag in MONITORS || flag in SETS)
    requires flag !in DISKS && flag !in NICS
    ensures Read(s, flag) ==
            ReadAsAll((if flag in DEVICES then Select(DeviceItems(s), flag) else []) +
                      (if flag in CONSOLE then Select(ConsoleItems(s), flag) else []) +
                      (if flag in MONITORS then Select(MonitorsItems(s.monitors, |s.monitors|), flag) else []) +
                      if flag in SETS then Select(FDSetsItems(s.fdSets, |s.fdSets|), flag) else [])
  {
    hide *;
    DeviceApart(flag);
    SilentParts(s, flag);
    ReadIs(s, flag);
    PartsAre(s, flag);
  }

  lemma OtherNames()
    ensures "-object" in DEVICES && "-object" !in CONSOLE && "-object" in MONITORS && "-object" !in SETS
    ensures "-chardev" !in DEVICES && "-chardev" in CONSOLE && "-chardev" in MONITORS && "-chardev" !in SETS
    ensures "-qmp" !in DEVICES && "-qmp" !in CONSOLE && "-qmp" in MONITORS && "-qmp" !in SETS
    ensures "-serial" !in DEVICES && "-serial" in CONSOLE && "-serial" !in MONITORS && "-serial" !in SETS
    ensures "-add-fd" !in DEVICES && "-add-fd" !in CONSOLE && "-add-fd" !in MONITORS && "-add-fd" in SETS
    ensures forall flag | flag in ["-object", "-chardev", "-qmp", "-serial", "-add-fd"] ::
              flag !in DISKS && flag !in NICS
  {
  }

  lemma ConsoleSelected(s: Spec)
    ensures Select(ConsoleItems(s), "-chardev") ==
            if s.serialFDSet != 0 then [Listed("-chardev", ConsoleProps(s))] else []
    ensures Select(ConsoleItems(s), "-serial") ==
            [Verbatim("-serial", if s.serialFDSet != 0 then "chardev:serial0"
                                 else if s.serial != "" then s.serial else "none")]
  {
    hide ConsoleProps, Select;
    if s.serialFDSet != 0 {
      SelectAt(ConsoleItems(s), 0, "-chardev");
      SelectAt(ConsoleItems(s), 1, "-serial");
    } else {
      SelectNone(ConsoleItems(s), "-chardev");
      SelectAt(ConsoleItems(s), 0, "-serial");
    }
  }

  lemma ConsoleMeant(s: Spec)
    ensures MeantAll(ConsoleProps(s)) ==
            [Flag("file"), Set("id", "serial0"), Set("path", "/dev/fdset/" + Itoa(s.serialFDSet)), Set("append", "on")]
  {
    hide Itoa;
  }

  lemma VerbatimIsRead(flag: string, text: string)
    ensures ReadAs(Verbatim(flag, text)) == ReadText(flag, text)
  {
  }

  /** The console: on the descriptor set that was given for it, or what the caller said, or none. */
  lemma ConsoleIsTold(s: Spec)
    requires Accepts(s)
    ensures Read(s, "-serial") ==
            [ReadText("-serial", if s.serialFDSet != 0 then "chardev:serial0"
                                 else if s.serial != "" then s.serial else "none")]
    ensures s.serialFDSet != 0 ==>
              Read(s, "-chardev") != [] &&
              Read(s, "-chardev")[0] ==
              ReadOpts("-chardev", [Flag("file"), Set("id", "serial0"),
                                    Set("path", "/dev/fdset/" + Itoa(s.serialFDSet)), Set("append", "on")])
  {
    hide *;
    OtherLists(s);
    ConsoleSelected(s);
    ConsoleMeant(s);
    FirstOf(Read(s, "-chardev"), Select(ConsoleItems(s), "-chardev"),
            Select(MonitorsItems(s.monitors, |s.monitors|), "-chardev"));
    var text := if s.serialFDSet != 0 then "chardev:serial0" else if s.serial != "" then s.serial else "none";
    OneRead(Verbatim("-serial", text));
    VerbatimIsRead("-serial", text);
    ListedIsRead("-chardev", ConsoleProps(s));
  }

  lemma QmpMeant(m: Monitor, i: nat)
    ensures MeantAll(QmpChardevProps(m, i)) ==
            [Flag("socket"), Set("id", "qmp" + Itoa(i)), Set("fd", Itoa(m.fd)), Set("server", "on"), Set("wait", "off")]
    ensures MeantAll(QmpMonitorProps(i)) ==
            [Flag("monitor-qmp"), Set("id", "mon-qmp" + Itoa(i)), Set("chardev", "qmp" + Itoa(i))]
  {
    hide Itoa;
    assert "mon-" + ("qmp" + Itoa(i)) == "mon-qmp" + Itoa(i);
  }

  /** A monitor on a descriptor is a character device on that descriptor and a monitor on that device; they
      come in the monitors' order, after the console's and the memory's. */
  lemma DescriptorMonitorsAreTold(s: Spec, i: nat)
    requires Accepts(s) && i < |s.monitors| && s.monitors[i].socket == ""
    ensures var chardevs, console := Read(s, "-chardev"), if s.serialFDSet != 0 then 1 else 0;
            var k := console + OnDescriptor(s.monitors, i);
            && |chardevs| == console + OnDescriptor(s.monitors, |s.monitors|) && k < |chardevs|
            && chardevs[k] ==
               ReadOpts("-chardev", [Flag("socket"), Set("id", "qmp" + Itoa(i)), Set("fd", Itoa(s.monitors[i].fd)),
                                     Set("server", "on"), Set("wait", "off")])
    ensures var objects, growth := Read(s, "-object"), if s.maxMB > s.sizeMB then 1 else 0;
            var k := growth + OnDescriptor(s.monitors, i);
            && |objects| == growth + OnDescriptor(s.monitors, |s.monitors|) && k < |objects|
            && objects[k] ==
               ReadOpts("-object", [Flag("monitor-qmp"), Set("id", "mon-qmp" + Itoa(i)),
                                    Set("chardev", "qmp" + Itoa(i))])
  {
    hide *;
    ChardevAt(s, i);
    ObjectAt(s, i);
    QmpMeant(s.monitors[i], i);
  }

  lemma ChardevAt(s: Spec, i: nat)
    requires Accepts(s) && i < |s.monitors| && s.monitors[i].socket == ""
    ensures var rs, console := Read(s, "-chardev"), if s.serialFDSet != 0 then 1 else 0;
            var k := console + OnDescriptor(s.monitors, i);
            && |rs| == console + OnDescriptor(s.monitors, |s.monitors|) && k < |rs|
            && rs[k] == ReadOpts("-chardev", MeantAll(QmpChardevProps(s.monitors[i], i)))
  {
    hide *;
    var a, b := Select(ConsoleItems(s), "-chardev"), Select(MonitorsItems(s.monitors, |s.monitors|), "-chardev");
    OtherLists(s);
    ConsoleSelected(s);
    ChardevsSelected(s.monitors, |s.monitors|);
    SecondOfTwo(Read(s, "-chardev"), a, b, OnDescriptor(s.monitors, i),
                Listed("-chardev", QmpChardevProps(s.monitors[i], i)));
    ListedIsRead("-chardev", QmpChardevProps(s.monitors[i], i));
  }

  lemma ObjectAt(s: Spec, i: nat)
    requires Accepts(s) && i < |s.monitors| && s.monitors[i].socket == ""
    ensures var rs, growth := Read(s, "-object"), if s.maxMB > s.sizeMB then 1 else 0;
            var k := growth + OnDescriptor(s.monitors, i);
            && |rs| == growth + OnDescriptor(s.monitors, |s.monitors|) && k < |rs|
            && rs[k] == ReadOpts("-object", MeantAll(QmpMonitorProps(i)))
  {
    hide *;
    var a, b := Select(DeviceItems(s), "-object"), Select(MonitorsItems(s.monitors, |s.monitors|), "-object");
    OtherLists(s);
    DevicesSelected(s);
    ObjectsSelected(s.monitors, |s.monitors|);
    SecondOfTwo(Read(s, "-object"), a, b, OnDescriptor(s.monitors, i), Listed("-object", QmpMonitorProps(i)));
    ListedIsRead("-object", QmpMonitorProps(i));
  }

  lemma SocketIsRead(path: string)
    requires !NamesItsOption(path)
    ensures ReadAs(Socket(path)) == ReadOpts("-qmp", [Set("path", path), Set("server", "on"), Set("wait", "off")])
  {
  }

  /** A monitor on a socket is one QEMU listens on at its path, unless the path names an option. */
  lemma SocketMonitorsAreTold(s: Spec, i: nat)
    requires Accepts(s) && i < |s.monitors| && HasSocket(s.monitors[i]) && !NamesItsOption(s.monitors[i].socket)
    ensures var sockets, k := Read(s, "-qmp"), OnSocket(s.monitors, i);
            && |sockets| == OnSocket(s.monitors, |s.monitors|) && k < |sockets|
            && sockets[k] ==
               ReadOpts("-qmp", [Set("path", s.monitors[i].socket), Set("server", "on"), Set("wait", "off")])
  {
    hide *;
    OtherLists(s);
    SocketsSelected(s.monitors, |s.monitors|);
    SocketIsRead(s.monitors[i].socket);
  }

  /** The memory that can be added is what the ceiling leaves above what the machine boots with. */
  lemma GrowthIsTold(s: Spec)
    requires Accepts(s) && s.maxMB > s.sizeMB
    ensures Read(s, "-object") != [] &&
            Read(s, "-object")[0] ==
            ReadOpts("-object", [Flag("memory-backend-ram"), Set("id", "mem.growth"),
                                 Set("size", Itoa(s.maxMB - s.sizeMB) + "M")])
  {
    hide *;
    OtherLists(s);
    DevicesSelected(s);
    GrowthMeant(s);
    FirstOf(Read(s, "-object"), Select(DeviceItems(s), "-object"),
            Select(MonitorsItems(s.monitors, |s.monitors|), "-object"));
    ListedIsRead("-object", GrowthProps(s));
  }

  lemma GrowthMeant(s: Spec)
    ensures MeantAll(GrowthProps(s)) ==
            [Flag("memory-backend-ram"), Set("id", "mem.growth"), Set("size", Itoa(s.maxMB - s.sizeMB) + "M")]
  {
    hide Itoa;
  }

  lemma FDMeant(id: int, fd: FD)
    ensures MeantAll(FDProps(id, fd)) ==
            [Set("fd", Itoa(fd.num)), Set("set", Itoa(id))] + if fd.note != "" then [Set("opaque", fd.note)] else []
  {
    hide Itoa;
  }

  /** Every descriptor is added to its own set, in order, with its note when it has one. */
  lemma DescriptorsAreTold(s: Spec, i: nat, k: nat)
    requires Accepts(s) && i < |s.fdSets| && k < |s.fdSets[i].fds|
    ensures var rs, at, fd := Read(s, "-add-fd"), Descriptors(s.fdSets, i) + k, s.fdSets[i].fds[k];
            && |rs| == Descriptors(s.fdSets, |s.fdSets|) && at < |rs|
            && rs[at] ==
               ReadOpts("-add-fd", [Set("fd", Itoa(fd.num)), Set("set", Itoa(s.fdSets[i].id))] +
                                   if fd.note != "" then [Set("opaque", fd.note)] else [])
  {
    hide *;
    OtherLists(s);
    SetListed(s.fdSets, |s.fdSets|, i, k);
    FDMeant(s.fdSets[i].id, s.fdSets[i].fds[k]);
    ListedIsRead("-add-fd", FDProps(s.fdSets[i].id, s.fdSets[i].fds[k]));
  }

  // ----- and what is hashed

  /** The first six records say the size of the BIOS, the very texts of -machine, -cpu, -smp and -m, and the
      accelerator's name. */
  predicate TellsShape(s: Spec, size: nat, rs: seq<Records.Record>) {
    && |rs| == 6 && rs[0] == Records.Record("bios-size", Itoa(size))
    && rs[1].key == "machine" && Read(s, "-machine") == [ReadText("-machine", rs[1].value)]
    && rs[2] == Records.Record("accel", if s.accel == "tcg" then "tcg" else "kvm")
    && rs[3].key == "cpu" && Read(s, "-cpu") == [ReadText("-cpu", rs[3].value)]
    && rs[4].key == "smp" && Read(s, "-smp") == [ReadText("-smp", rs[4].value)]
    && rs[5].key == "memory" && Read(s, "-m") == [ReadText("-m", rs[5].value)]
  }

  /** Those after them say the contract, line by line, and last the host's CPU, exactly when the guest is
      shown it. */
  predicate TellsRest(s: Spec, host: string, rs: seq<Records.Record>) {
    var lines, shown := Fingerprint.ContractLines(s), s.cpu == "" || s.cpu == "host" || s.cpu == "max";
    && |rs| == |lines| + (if shown then 1 else 0)
    && (forall k | 0 <= k < |lines| :: rs[k] == Records.Record("contract", lines[k]))
    && (shown ==> rs[|lines|] == Records.Record("host-cpu", host))
  }

  predicate Tells(s: Spec, size: nat, host: string, rs: seq<Records.Record>) {
    |rs| >= 6 && TellsShape(s, size, rs[..6]) && TellsRest(s, host, rs[6..])
  }

  /** The fingerprint hashes what QEMU is told, and nothing else: that is what the bytes are read back as. */
  lemma HashedIsWhatIsTold(s: Spec, size: nat, host: string) returns (rs: seq<Records.Record>)
    requires Accepts(s)
    ensures Records.Decode(Fingerprint.Hashed(s, size, host)) == Some(rs) && Tells(s, size, host, rs)
  {
    rs := Fingerprint.RecordsOf(s, size, host);
    Fingerprint.RecordsReadable(s, size, host);
    Records.DecodeEncode(rs);
    hide Tells, Fingerprint.RecordsOf, Records.EncodeAll, Records.Decode, Accepts;
    RecordsTell(s, size, host);
  }

  lemma RecordsTell(s: Spec, size: nat, host: string)
    requires Accepts(s)
    ensures Tells(s, size, host, Fingerprint.RecordsOf(s, size, host))
  {
    hide TellsShape, TellsRest, Accepts, Fingerprint.ShapeRecords, Fingerprint.HostRecords, Fingerprint.ContractLines,
         Fingerprint.ContractRecords;
    ShapeIsTold(s, size);
    RestIsTold(s, host);
    var a, b, c := Fingerprint.ShapeRecords(s, size), Fingerprint.ContractRecords(Fingerprint.ContractLines(s)),
      Fingerprint.HostRecords(s, host);
    Fingerprint.SixShapeRecords(s, size);
    assert a + b + c == a + (b + c);
    assert (a + (b + c))[..6] == a && (a + (b + c))[6..] == b + c;
  }

  lemma ShapeIsTold(s: Spec, size: nat)
    requires Accepts(s)
    ensures TellsShape(s, size, Fingerprint.ShapeRecords(s, size))
  {
    AcceptedNames(s);
    ShapeTextsAreTold(s);
    ShapeRecordsAre(s, size);
    hide Read, Accepts, ShapeOf, Fingerprint.ShapeRecords, Itoa;
  }

  lemma RestIsTold(s: Spec, host: string)
    requires Accepts(s)
    ensures TellsRest(s, host, Fingerprint.ContractRecords(Fingerprint.ContractLines(s)) +
                               Fingerprint.HostRecords(s, host))
  {
    LastRecordIs(s, host);
    hide Accepts, Fingerprint.HostRecords, Fingerprint.ContractLines, Fingerprint.ContractRecords;
  }

  lemma AcceptedNames(s: Spec)
    requires Accepts(s)
    ensures NamesOk(s)
  {
  }

  lemma ShapeTextsAreTold(s: Spec)
    requires Accepts(s)
    ensures Read(s, "-machine") == [ReadText("-machine", ShapeOf(s).machine)]
    ensures Read(s, "-cpu") == [ReadText("-cpu", ShapeOf(s).cpu)]
    ensures Read(s, "-smp") == [ReadText("-smp", ShapeOf(s).smp)]
    ensures Read(s, "-m") == [ReadText("-m", ShapeOf(s).memory)]
  {
    hide Read, Accepts, ShapeOf;
    ShapeAt(s, 0);
    ShapeAt(s, 2);
    ShapeAt(s, 3);
    ShapeAt(s, 4);
    ShapeTexts(s);
  }

  lemma ShapeRecordsAre(s: Spec, size: nat)
    requires NamesOk(s)
    ensures var rs := Fingerprint.ShapeRecords(s, size);
            && |rs| == 6 && rs[0] == Records.Record("bios-size", Itoa(size))
            && rs[1] == Records.Record("machine", ShapeOf(s).machine)
            && rs[2] == Records.Record("accel", if s.accel == "tcg" then "tcg" else "kvm")
            && rs[3] == Records.Record("cpu", ShapeOf(s).cpu) && rs[4] == Records.Record("smp", ShapeOf(s).smp)
            && rs[5] == Records.Record("memory", ShapeOf(s).memory)
  {
    hide Itoa, CpuModel, CpuOptions, SmpArg, MemoryArg;
  }

  lemma LastRecordIs(s: Spec, host: string)
    requires Accepts(s)
    ensures Fingerprint.HostRecords(s, host) ==
            if s.cpu == "" || s.cpu == "host" || s.cpu == "max" then [Records.Record("host-cpu", host)] else []
  {
    Fingerprint.HostRecordsAre(s, host);
    hide Fingerprint.HostRecords;
  }
}
