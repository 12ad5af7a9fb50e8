/** What QEMU finds when a command line is asked a question: the names it defines, the names it
    refers to, the descriptor sets and the slots, worked out part by part. */
module References {
  import opened Text
  import opened QemuOptions
  import opened Argv
  import opened Machine
  import opened Args

  // ----- asking the command line

  datatype Query =
    | DefinesNode | DefinesNetdev | DefinesObject | DefinesChardev | DefinesSet
    | RefersNode | RefersNetdev | RefersObject | RefersChardev | RefersSet
    | Slots

  /** The property that answers a question in an option string of each flag. */
  function KeyFor(flag: string, q: Query): Option<string> {
    if flag == "-device" then
      match q
      case RefersNode => Some("drive")
      case RefersNetdev => Some("netdev")
      case RefersObject => Some("memdev")
      case Slots => Some("addr")
      case _ => None
    else if flag == "-drive" then if q.DefinesNode? then Some("id") else None
    else if flag == "-netdev" then if q.DefinesNetdev? then Some("id") else None
    else if flag == "-object" then
      if q.DefinesObject? then Some("id") else if q.RefersChardev? then Some("chardev") else None
    else if flag == "-chardev" then
      if q.DefinesChardev? then Some("id") else if q.RefersSet? then Some("path") else None
    else if flag == "-add-fd" then if q.DefinesSet? then Some("set") else None
    else if flag == "-accel" then if q.RefersSet? then Some("device") else None
    else None
  }

  predicate Keyed(o: Opt, key: string) { o.Set? && o.key == key }

  /** The value of a key: the first it is set to, or nothing. */
  function Lookup(opts: seq<Opt>, key: string): seq<string> {
    if opts == [] then [] else if Keyed(opts[0], key) then [opts[0].value] else Lookup(opts[1..], key)
  }

  function AskNode(n: Node, q: Query): seq<string> {
    match q
    case DefinesNode => [n.nodeName]
    case RefersNode =>
      if n.FileNode? then [] else [n.file] + (if n.backing.Named? then [n.backing.node] else [])
    case RefersSet => if n.FileNode? then [n.filename] else []
    case _ => []
  }

  const CHARDEV := "chardev:"

  predicate NamesChardev(text: string) { |text| >= 8 && text[..8] == CHARDEV }

  function Ask(r: Reading, q: Query): seq<string> {
    match r
    case ReadBare(_) => []
    case ReadText(flag, text) =>
      if flag == "-serial" && q.RefersChardev? && NamesChardev(text) then [text[8..]] else []
    case ReadOpts(flag, opts) =>
      (match KeyFor(flag, q) case None => [] case Some(key) => Lookup(opts, key))
    case ReadBlock(node) => AskNode(node, q)
  }

  /** Every answer on a command line, in order. */
  function Collect(rs: seq<Reading>, q: Query): seq<string> {
    if rs == [] then [] else Ask(rs[0], q) + Collect(rs[1..], q)
  }

  function Of(items: seq<Item>, q: Query): seq<string> {
    Collect(MeantByAll(items), q)
  }

  /** A reader of the command line gets the same answers, even from a socket it does not read as it was
      meant. */
  lemma {:induction false} ReadingIsAsked(items: seq<Item>, q: Query)
    ensures Collect(ReadAsAll(items), q) == Of(items, q)
  {
    hide Ask, ReadAs, MeantBy;
    if items != [] {
      ReadingIsAsked(items[1..], q);
      OneIsAsked(items[0], q);
      assert ReadAsAll(items)[1..] == ReadAsAll(items[1..]) && MeantByAll(items)[1..] == MeantByAll(items[1..]);
    }
  }

  lemma OneIsAsked(i: Item, q: Query)
    ensures Ask(ReadAs(i), q) == Ask(MeantBy(i), q)
  {
  }

  lemma {:induction false} OfConcat(a: seq<Item>, b: seq<Item>, q: Query)
    ensures Of(a + b, q) == Of(a, q) + Of(b, q)
  {
    if a == [] {
      assert a + b == b;
    } else {
      assert (a + b)[1..] == a[1..] + b;
      OfConcat(a[1..], b, q);
    }
  }

  lemma OfOne(i: Item, q: Query)
    ensures Of([i], q) == Ask(MeantBy(i), q)
  {
    assert MeantByAll([i])[1..] == [];
    assert Collect(MeantByAll([i])[1..], q) == [];
  }

  lemma OfAppend(items: seq<Item>, i: Item, q: Query)
    ensures Of(items + [i], q) == Of(items, q) + Ask(MeantBy(i), q)
  {
    OfConcat(items, [i], q);
    OfOne(i, q);
  }

  lemma OfPair(a: Item, b: Item, q: Query)
    ensures Of([a, b], q) == Ask(MeantBy(a), q) + Ask(MeantBy(b), q)
  {
    assert [a, b] == [a] + [b];
    OfAppend([a], b, q);
    OfOne(a, q);
  }

  // ----- looking up a key in the machine's own properties

  predicate Has(ps: seq<Prop>, k: nat, key: string, value: string)
    requires k < |ps|
  {
    Meant(ps[k]) == Set(key, value) && forall i | 0 <= i < k :: !Keyed(Meant(ps[i]), key)
  }

  predicate Lacks(ps: seq<Prop>, key: string) {
    forall i | 0 <= i < |ps| :: !Keyed(Meant(ps[i]), key)
  }

  lemma {:induction false} LookupHas(ps: seq<Prop>, k: nat, key: string, value: string)
    requires k < |ps| && Has(ps, k, key, value)
    ensures Lookup(MeantAll(ps), key) == [value]
  {
    if k > 0 {
      assert !Keyed(Meant(ps[0]), key);
      LookupHas(ps[1..], k - 1, key, value);
    }
  }

  lemma {:induction false} LookupLacks(ps: seq<Prop>, key: string)
    requires Lacks(ps, key)
    ensures Lookup(MeantAll(ps), key) == []
  {
    if ps != [] {
      LookupLacks(ps[1..], key);
    }
  }

  lemma {:induction false} OfNone(items: seq<Item>, q: Query)
    requires forall i | 0 <= i < |items| :: Ask(MeantBy(items[i]), q) == []
    ensures Of(items, q) == []
  {
    if items != [] {
      OfNone(items[1..], q);
    }
  }

  // ----- the answers of each part of the command line

  lemma HeadAnswers(s: Spec, q: Query)
    ensures Of(HeadItems(s), q) == []
  {
    OfNone(HeadItems(s), q);
  }

  lemma AccelAsked(s: Spec, q: Query)
    ensures Ask(MeantBy(Listed("-accel", AccelProps(s))), q)
         == if q.RefersSet? && s.kvmFDSet != 0 then [FDSetPath(s.kvmFDSet)] else []
  {
    if s.kvmFDSet != 0 {
      LookupHas(AccelProps(s), 1, "device", FDSetPath(s.kvmFDSet));
    } else {
      LookupLacks(AccelProps(s), "device");
    }
  }

  lemma MachineAsked(text: string, q: Query)
    ensures Ask(MeantBy(Verbatim("-machine", text)), q) == []
    ensures Ask(MeantBy(Verbatim("-cpu", text)), q) == []
    ensures Ask(MeantBy(Verbatim("-smp", text)), q) == []
    ensures Ask(MeantBy(Verbatim("-m", text)), q) == []
  {
  }

  lemma ShapeAnswers(s: Spec, q: Query)
    ensures Of(ShapeItems(s), q) == if q.RefersSet? && s.kvmFDSet != 0 then [FDSetPath(s.kvmFDSet)] else []
  {
    var h := ShapeItems(s);
    MachineAsked(h[0].text, q);
    AccelAsked(s, q);
    MachineAsked(h[2].text, q);
    MachineAsked(h[3].text, q);
    MachineAsked(h[4].text, q);
    FiveAnswers(h, q);
  }

  lemma FiveAnswers(h: seq<Item>, q: Query)
    requires |h| == 5 && Ask(MeantBy(h[0]), q) == []
    requires Ask(MeantBy(h[2]), q) == [] && Ask(MeantBy(h[3]), q) == [] && Ask(MeantBy(h[4]), q) == []
    ensures Of(h, q) == Ask(MeantBy(h[1]), q)
  {
    OfConcat(h[..2], h[2..], q);
    assert h[..2] == [h[0], h[1]] && h[..2] + h[2..] == h;
    OfPair(h[0], h[1], q);
    OfNone(h[2..], q);
  }

  lemma ChipsetAnswers(q: Query)
    ensures Of(CHIPSET, q) == []
  {
    OfNone(CHIPSET, q);
  }

  lemma BootAnswers(s: Spec, q: Query)
    ensures Of(BootItems(s), q) == [] && Of(IncomingItems(s), q) == []
  {
    OfNone(BootItems(s), q);
    OfNone(IncomingItems(s), q);
  }

  /** The answers of one -device: everything but what it is asked for is absent. */
  predicate DeviceSays(ps: seq<Prop>, drive: seq<string>, netdev: seq<string>, memdev: seq<string>, addr: seq<string>) {
    && Lookup(MeantAll(ps), "drive") == drive
    && Lookup(MeantAll(ps), "netdev") == netdev
    && Lookup(MeantAll(ps), "memdev") == memdev
    && Lookup(MeantAll(ps), "addr") == addr
  }

  function SlotText(n: nat): string { "0x" + Hex(n) }

  lemma VmgenidSays()
    ensures DeviceSays(VMGENID, [], [], [], [])
  {
    hide Hex, Itoa, Lookup, MeantAll;
    LookupLacks(VMGENID, "drive");
    LookupLacks(VMGENID, "netdev");
    LookupLacks(VMGENID, "memdev");
    LookupLacks(VMGENID, "addr");
  }

  lemma RngSays()
    ensures DeviceSays(RngProps(), [], [], [], [SlotText(SLOT_RNG)])
  {
    hide Hex, Itoa, Lookup, MeantAll;
    LookupLacks(RngProps(), "drive");
    LookupLacks(RngProps(), "netdev");
    LookupLacks(RngProps(), "memdev");
    LookupHas(RngProps(), 2, "addr", SlotText(SLOT_RNG));
  }

  lemma BalloonSays()
    ensures DeviceSays(BalloonProps(), [], [], [], [SlotText(SLOT_BALLOON)])
  {
    hide Hex, Itoa, Lookup, MeantAll;
    LookupLacks(BalloonProps(), "drive");
    LookupLacks(BalloonProps(), "netdev");
    LookupLacks(BalloonProps(), "memdev");
    LookupHas(BalloonProps(), 4, "addr", SlotText(SLOT_BALLOON));
  }

  lemma VsockSays(s: Spec)
    ensures DeviceSays(VsockProps(s), [], [], [], [SlotText(SLOT_VSOCK)])
  {
    hide Hex, Itoa, Lookup, MeantAll;
    LookupLacks(VsockProps(s), "drive");
    LookupLacks(VsockProps(s), "netdev");
    LookupLacks(VsockProps(s), "memdev");
    LookupHas(VsockProps(s), 3, "addr", SlotText(SLOT_VSOCK));
  }

  lemma VirtioMemSays()
    ensures DeviceSays(VirtioMemProps(), [], [], ["mem.growth"], [SlotText(SLOT_MEM)])
  {
    hide Hex, Itoa, Lookup, MeantAll;
    LookupLacks(VirtioMemProps(), "drive");
    LookupLacks(VirtioMemProps(), "netdev");
    LookupHas(VirtioMemProps(), 2, "memdev", "mem.growth");
    LookupHas(VirtioMemProps(), 5, "addr", SlotText(SLOT_MEM));
  }

  lemma ScsiSays()
    ensures DeviceSays(ScsiProps(), [], [], [], [SlotText(SLOT_HOTPLUG)])
  {
    hide Hex, Itoa, Lookup, MeantAll;
    LookupLacks(ScsiProps(), "drive");
    LookupLacks(ScsiProps(), "netdev");
    LookupLacks(ScsiProps(), "memdev");
    LookupHas(ScsiProps(), 3, "addr", SlotText(SLOT_HOTPLUG));
  }

  lemma BlkSays(d: Disk, i: nat)
    ensures DeviceSays(BlkProps(d, i), [NodeName(i, 0)], [], [], [SlotText(SLOT_DISK_BASE + i)])
  {
    hide Hex, NodeName, Lookup, MeantAll;
    LookupHas(BlkProps(d, i), 1, "drive", NodeName(i, 0));
    LookupLacks(BlkProps(d, i), "netdev");
    LookupLacks(BlkProps(d, i), "memdev");
    LookupHas(BlkProps(d, i), 3, "addr", SlotText(SLOT_DISK_BASE + i));
  }

  lemma NetSays(n: NIC, i: nat)
    ensures DeviceSays(NetProps(n, i), [], [NetName(i)], [], [SlotText(SLOT_NIC_BASE + i)])
  {
    hide Hex, Itoa, NetName, Lookup, MeantAll;
    LookupLacks(NetProps(n, i), "drive");
    LookupHas(NetProps(n, i), 1, "netdev", NetName(i));
    LookupLacks(NetProps(n, i), "memdev");
    LookupHas(NetProps(n, i), 5, "addr", SlotText(SLOT_NIC_BASE + i));
  }

  lemma GrowthSays(s: Spec)
    ensures Lookup(MeantAll(GrowthProps(s)), "id") == ["mem.growth"]
    ensures Lookup(MeantAll(GrowthProps(s)), "chardev") == []
  {
    hide Hex, Itoa, Lookup, MeantAll;
    LookupHas(GrowthProps(s), 1, "id", "mem.growth");
    LookupLacks(GrowthProps(s), "chardev");
  }

  lemma DeviceAsked(ps: seq<Prop>, drive: seq<string>, netdev: seq<string>, memdev: seq<string>, addr: seq<string>,
      q: Query)
    requires DeviceSays(ps, drive, netdev, memdev, addr)
    ensures Ask(MeantBy(Listed("-device", ps)), q) ==
            match q
            case RefersNode => drive
            case RefersNetdev => netdev
            case RefersObject => memdev
            case Slots => addr
            case _ => []
  {
  }

  function DeviceSlots(s: Spec): seq<nat> {
    [SLOT_RNG, SLOT_BALLOON] + (if s.vsockCID != 0 then [SLOT_VSOCK] else []) +
    (if s.maxMB > s.sizeMB then [SLOT_MEM] else []) + (if s.hotplugDisks > 0 then [SLOT_HOTPLUG] else [])
  }

  function SlotTexts(ns: seq<nat>): (r: seq<string>)
    ensures |r| == |ns| && forall i | 0 <= i < |ns| :: r[i] == SlotText(ns[i])
  {
    if ns == [] then [] else [SlotText(ns[0])] + SlotTexts(ns[1..])
  }

  lemma FixedDeviceAnswers(q: Query)
    ensures Of(FixedDeviceItems(), q) == if q.Slots? then SlotTexts([SLOT_RNG, SLOT_BALLOON]) else []
  {
    hide VMGENID, RngProps, BalloonProps, SlotText, Ask, MeantBy, Of;
    VmgenidSays();
    RngSays();
    BalloonSays();
    DeviceAsked(VMGENID, [], [], [], [], q);
    DeviceAsked(RngProps(), [], [], [], [SlotText(SLOT_RNG)], q);
    DeviceAsked(BalloonProps(), [], [], [], [SlotText(SLOT_BALLOON)], q);
    var a, b, c := Listed("-device", VMGENID), Listed("-device", RngProps()), Listed("-device", BalloonProps());
    assert FixedDeviceItems() == [a, b] + [c];
    OfAppend([a, b], c, q);
    OfPair(a, b, q);
  }

  lemma OptionalDeviceAnswers(s: Spec, q: Query)
    ensures Of(VsockItems(s), q) == if q.Slots? && s.vsockCID != 0 then SlotTexts([SLOT_VSOCK]) else []
    ensures Of(HotplugItems(s), q) == if q.Slots? && s.hotplugDisks > 0 then SlotTexts([SLOT_HOTPLUG]) else []
  {
    hide VsockProps, ScsiProps, SlotText, Ask, MeantBy;
    VsockSays(s);
    ScsiSays();
    DeviceAsked(VsockProps(s), [], [], [], [SlotText(SLOT_VSOCK)], q);
    DeviceAsked(ScsiProps(), [], [], [], [SlotText(SLOT_HOTPLUG)], q);
    OfOne(Listed("-device", VsockProps(s)), q);
    OfOne(Listed("-device", ScsiProps()), q);
  }

  lemma ObjectAsked(ps: seq<Prop>, id: seq<string>, chardev: seq<string>, q: Query)
    requires Lookup(MeantAll(ps), "id") == id && Lookup(MeantAll(ps), "chardev") == chardev
    ensures Ask(MeantBy(Listed("-object", ps)), q) ==
            match q case DefinesObject => id case RefersChardev => chardev case _ => []
  {
  }

  lemma ChardevAsked(ps: seq<Prop>, id: seq<string>, path: seq<string>, q: Query)
    requires Lookup(MeantAll(ps), "id") == id && Lookup(MeantAll(ps), "path") == path
    ensures Ask(MeantBy(Listed("-chardev", ps)), q) ==
            match q case DefinesChardev => id case RefersSet => path case _ => []
  {
  }

  lemma NetdevAsked(ps: seq<Prop>, id: seq<string>, q: Query)
    requires Lookup(MeantAll(ps), "id") == id
    ensures Ask(MeantBy(Listed("-netdev", ps)), q) == if q.DefinesNetdev? then id else []
  {
  }

  lemma BackedDevice(backend: seq<Prop>, dev: seq<Prop>, id: string, addr: string, q: Query)
    requires Lookup(MeantAll(backend), "id") == [id] && Lookup(MeantAll(backend), "chardev") == []
    requires DeviceSays(dev, [], [], [id], [addr])
    ensures Of([Listed("-object", backend), Listed("-device", dev)], q) ==
            if q.Slots? then [addr] else if q.DefinesObject? || q.RefersObject? then [id] else []
  {
    ObjectAsked(backend, [id], [], q);
    DeviceAsked(dev, [], [], [id], [addr], q);
    OfPair(Listed("-object", backend), Listed("-device", dev), q);
  }

  lemma MonitorOnChardev(chardev: seq<Prop>, monitor: seq<Prop>, id: string, name: string, q: Query)
    requires Lookup(MeantAll(chardev), "id") == [id] && Lookup(MeantAll(chardev), "path") == []
    requires Lookup(MeantAll(monitor), "id") == [name] && Lookup(MeantAll(monitor), "chardev") == [id]
    ensures Of([Listed("-chardev", chardev), Listed("-object", monitor)], q) ==
            if q.DefinesChardev? || q.RefersChardev? then [id] else if q.DefinesObject? then [name] else []
  {
    ChardevAsked(chardev, [id], [], q);
    ObjectAsked(monitor, [name], [id], q);
    OfPair(Listed("-chardev", chardev), Listed("-object", monitor), q);
  }

  lemma GrowthAnswers(s: Spec, q: Query)
    ensures Of(GrowthItems(s), q) ==
            if s.maxMB <= s.sizeMB then []
            else if q.Slots? then SlotTexts([SLOT_MEM])
            else if q.DefinesObject? || q.RefersObject? then ["mem.growth"] else []
  {
    if s.maxMB > s.sizeMB {
      VirtioMemSays();
      GrowthSays(s);
      BackedDevice(GrowthProps(s), VirtioMemProps(), "mem.growth", SlotText(SLOT_MEM), q);
    }
  }

  lemma SlotTextsConcat(a: seq<nat>, b: seq<nat>)
    ensures SlotTexts(a + b) == SlotTexts(a) + SlotTexts(b)
  {
  }

  lemma DeviceParts(s: Spec, q: Query)
    ensures Of(DeviceItems(s), q) ==
            Of(FixedDeviceItems(), q) + Of(VsockItems(s), q) + Of(GrowthItems(s), q) + Of(HotplugItems(s), q)
  {
    OfConcat(FixedDeviceItems(), VsockItems(s), q);
    OfConcat(FixedDeviceItems() + VsockItems(s), GrowthItems(s), q);
    OfConcat(FixedDeviceItems() + VsockItems(s) + GrowthItems(s), HotplugItems(s), q);
  }

  lemma DeviceSlotTexts(s: Spec)
    ensures SlotTexts(DeviceSlots(s)) ==
            SlotTexts([SLOT_RNG, SLOT_BALLOON]) + (if s.vsockCID != 0 then SlotTexts([SLOT_VSOCK]) else []) +
            (if s.maxMB > s.sizeMB then SlotTexts([SLOT_MEM]) else []) +
            (if s.hotplugDisks > 0 then SlotTexts([SLOT_HOTPLUG]) else [])
  {
    var a: seq<nat> := [SLOT_RNG, SLOT_BALLOON];
    var b: seq<nat> := if s.vsockCID != 0 then [SLOT_VSOCK] else [];
    var c: seq<nat> := if s.maxMB > s.sizeMB then [SLOT_MEM] else [];
    var d: seq<nat> := if s.hotplugDisks > 0 then [SLOT_HOTPLUG] else [];
    SlotTextsConcat(a, b);
    SlotTextsConcat(a + b, c);
    SlotTextsConcat(a + b + c, d);
  }

  lemma DeviceAnswers(s: Spec, q: Query)
    ensures Of(DeviceItems(s), q) ==
            if q.Slots? then SlotTexts(DeviceSlots(s))
            else if (q.DefinesObject? || q.RefersObject?) && s.maxMB > s.sizeMB then ["mem.growth"] else []
  {
    hide Of, SlotTexts, DeviceItems, FixedDeviceItems, VsockItems, GrowthItems, HotplugItems, DeviceSlots;
    DeviceParts(s, q);
    FixedDeviceAnswers(q);
    OptionalDeviceAnswers(s, q);
    GrowthAnswers(s, q);
    DeviceSlotTexts(s);
  }

  // disks

  function AskNodes(nodes: seq<Node>, q: Query): seq<string> {
    if nodes == [] then [] else AskNode(nodes[0], q) + AskNodes(nodes[1..], q)
  }

  lemma {:induction false} BlocksAnswers(nodes: seq<Node>, q: Query)
    ensures Of(Blocks(nodes), q) == AskNodes(nodes, q)
  {
    if nodes != [] {
      BlocksAnswers(nodes[1..], q);
      assert Blocks(nodes)[1..] == Blocks(nodes[1..]);
    }
  }

  function DiskAnswer(d: Disk, i: nat, q: Query): seq<string> {
    (if d.chain != [] then AskNodes(ChainNodes(d, i, 0), q) else if q.DefinesNode? then [NodeName(i, 0)] else []) +
    (if q.RefersNode? then [NodeName(i, 0)] else if q.Slots? then [SlotText(SLOT_DISK_BASE + i)] else [])
  }

  lemma DriveSays(d: Disk, i: nat)
    ensures Lookup(MeantAll(DriveProps(d, i)), "id") == [NodeName(i, 0)]
  {
    LookupHas(DriveProps(d, i), 2, "id", NodeName(i, 0));
  }

  lemma DiskAnswers(d: Disk, i: nat, q: Query)
    ensures Of(DiskItems(d, i), q) == DiskAnswer(d, i, q)
  {
    BlkSays(d, i);
    DeviceAsked(BlkProps(d, i), [NodeName(i, 0)], [], [], [SlotText(SLOT_DISK_BASE + i)], q);
    DriveSays(d, i);
    var images := if d.chain != [] then Blocks(ChainNodes(d, i, 0)) else [Listed("-drive", DriveProps(d, i))];
    OfAppend(images, Listed("-device", BlkProps(d, i)), q);
    if d.chain != [] {
      BlocksAnswers(ChainNodes(d, i, 0), q);
    } else {
      OfOne(Listed("-drive", DriveProps(d, i)), q);
    }
  }

  function DisksAnswer(ds: seq<Disk>, n: nat, q: Query): seq<string>
    requires n <= |ds|
  {
    if n == 0 then [] else DisksAnswer(ds, n - 1, q) + DiskAnswer(ds[n - 1], n - 1, q)
  }

  lemma {:induction false} DisksAnswers(ds: seq<Disk>, n: nat, q: Query)
    requires n <= |ds|
    ensures Of(DisksItems(ds, n), q) == DisksAnswer(ds, n, q)
  {
    if n > 0 {
      DisksAnswers(ds, n - 1, q);
      DiskAnswers(ds[n - 1], n - 1, q);
      OfConcat(DisksItems(ds, n - 1), DiskItems(ds[n - 1], n - 1), q);
    }
  }

  // NICs, monitors, console, descriptor sets

  function NICsAnswer(n: nat, q: Query): seq<string> {
    if n == 0 then [] else
      NICsAnswer(n - 1, q) +
      (if q.DefinesNetdev? || q.RefersNetdev? then [NetName(n - 1)]
       else if q.Slots? then [SlotText(SLOT_NIC_BASE + n - 1)] else [])
  }

  lemma NetdevSays(n: NIC, i: nat)
    ensures Lookup(MeantAll(NetdevProps(n, i)), "id") == [NetName(i)]
  {
    LookupHas(NetdevProps(n, i), 1, "id", NetName(i));
  }

  lemma {:induction false} NICsAnswers(ns: seq<NIC>, n: nat, q: Query)
    requires n <= |ns|
    ensures Of(NICsItems(ns, n), q) == NICsAnswer(n, q)
  {
    hide NICItems, NetName, SlotText, Of;
    if n == 0 {
      OfNone([], q);
    } else {
      NICsAnswers(ns, n - 1, q);
      NICAnswers(ns[n - 1], n - 1, q);
      OfConcat(NICsItems(ns, n - 1), NICItems(ns[n - 1], n - 1), q);
    }
  }

  lemma NICAnswers(nic: NIC, i: nat, q: Query)
    ensures Of(NICItems(nic, i), q) ==
            if q.DefinesNetdev? || q.RefersNetdev? then [NetName(i)]
            else if q.Slots? then [SlotText(SLOT_NIC_BASE + i)] else []
  {
    hide NetProps, NetdevProps, NetName, SlotText, Of, Ask, MeantBy, Lookup, MeantAll;
    NetSays(nic, i);
    NetdevSays(nic, i);
    NetdevAsked(NetdevProps(nic, i), [NetName(i)], q);
    DeviceAsked(NetProps(nic, i), [], [NetName(i)], [], [SlotText(SLOT_NIC_BASE + i)], q);
    OfPair(Listed("-netdev", NetdevProps(nic, i)), Listed("-device", NetProps(nic, i)), q);
  }

  function ConsoleAnswer(s: Spec, q: Query): seq<string> {
    if s.serialFDSet != 0 then
      match q
      case DefinesChardev => ["serial0"]
      case RefersChardev => ["serial0"]
      case RefersSet => [FDSetPath(s.serialFDSet)]
      case _ => []
    else if q.RefersChardev? && NamesChardev(s.serial) then [s.serial[8..]] else []
  }

  lemma ConsoleSays(s: Spec)
    ensures Lookup(MeantAll(ConsoleProps(s)), "id") == ["serial0"]
    ensures Lookup(MeantAll(ConsoleProps(s)), "path") == [FDSetPath(s.serialFDSet)]
  {
    hide FDSetPath, Lookup, MeantAll;
    LookupHas(ConsoleProps(s), 1, "id", "serial0");
    LookupHas(ConsoleProps(s), 2, "path", FDSetPath(s.serialFDSet));
  }

  lemma ConsoleAnswers(s: Spec, q: Query)
    ensures Of(ConsoleItems(s), q) == ConsoleAnswer(s, q)
  {
    hide ConsoleProps, FDSetPath, Of, Lookup, MeantAll;
    if s.serialFDSet != 0 {
      ConsoleSays(s);
      OfPair(Listed("-chardev", ConsoleProps(s)), Verbatim("-serial", "chardev:serial0"), q);
      ConsoleNamesItsChardev();
    } else {
      OfOne(ConsoleItems(s)[0], q);
    }
  }

  lemma ConsoleNamesItsChardev()
    ensures NamesChardev("chardev:serial0") && "chardev:serial0"[8..] == "serial0"
  {
  }

  function MonitorAnswer(m: Monitor, i: nat, q: Query): seq<string> {
    if m.socket != "" then []
    else if q.DefinesChardev? || q.RefersChardev? then [QmpName(i)]
    else if q.DefinesObject? then ["mon-" + QmpName(i)] else []
  }

  function MonitorsAnswer(ms: seq<Monitor>, n: nat, q: Query): seq<string>
    requires n <= |ms|
  {
    if n == 0 then [] else MonitorsAnswer(ms, n - 1, q) + MonitorAnswer(ms[n - 1], n - 1, q)
  }

  lemma QmpSays(m: Monitor, i: nat)
    ensures Lookup(MeantAll(QmpChardevProps(m, i)), "id") == [QmpName(i)]
    ensures Lookup(MeantAll(QmpChardevProps(m, i)), "path") == []
    ensures Lookup(MeantAll(QmpMonitorProps(i)), "id") == ["mon-" + QmpName(i)]
    ensures Lookup(MeantAll(QmpMonitorProps(i)), "chardev") == [QmpName(i)]
  {
    LookupHas(QmpChardevProps(m, i), 1, "id", QmpName(i));
    LookupLacks(QmpChardevProps(m, i), "path");
    LookupHas(QmpMonitorProps(i), 1, "id", "mon-" + QmpName(i));
    LookupHas(QmpMonitorProps(i), 2, "chardev", QmpName(i));
  }

  lemma {:induction false} MonitorsAnswers(ms: seq<Monitor>, n: nat, q: Query)
    requires n <= |ms|
    ensures Of(MonitorsItems(ms, n), q) == MonitorsAnswer(ms, n, q)
  {
    hide QmpChardevProps, QmpMonitorProps, QmpName, Of, Lookup, MeantAll;
    if n == 0 {
      OfNone([], q);
    } else {
      var m := ms[n - 1];
      MonitorsAnswers(ms, n - 1, q);
      OfConcat(MonitorsItems(ms, n - 1), MonitorItems(m, n - 1), q);
      if m.socket != "" {
        OfOne(Socket(m.socket), q);
      } else {
        QmpSays(m, n - 1);
        MonitorOnChardev(QmpChardevProps(m, n - 1), QmpMonitorProps(n - 1), QmpName(n - 1), "mon-" + QmpName(n - 1), q);
      }
    }
  }

  function Repeat(text: string, n: nat): seq<string> {
    if n == 0 then [] else Repeat(text, n - 1) + [text]
  }

  function FDSetsAnswer(fs: seq<FDSet>, n: nat, q: Query): seq<string>
    requires n <= |fs|
  {
    if n == 0 || !q.DefinesSet? then []
    else FDSetsAnswer(fs, n - 1, q) + Repeat(Itoa(fs[n - 1].id), |fs[n - 1].fds|)
  }

  lemma FDSays(id: int, fd: FD)
    ensures Lookup(MeantAll(FDProps(id, fd)), "set") == [Itoa(id)]
  {
    hide Itoa, Lookup, MeantAll;
    LookupHas(FDProps(id, fd), 1, "set", Itoa(id));
  }

  lemma {:induction false} FDAnswers(f: FDSet, n: nat, q: Query)
    requires n <= |f.fds|
    ensures Of(FDItems(f, n), q) == if q.DefinesSet? then Repeat(Itoa(f.id), n) else []
  {
    hide FDProps, Of, Lookup, MeantAll, Itoa;
    if n == 0 {
      OfNone([], q);
    } else {
      FDAnswers(f, n - 1, q);
      FDSays(f.id, f.fds[n - 1]);
      OfAppend(FDItems(f, n - 1), Listed("-add-fd", FDProps(f.id, f.fds[n - 1])), q);
    }
  }

  lemma {:induction false} FDSetsAnswers(fs: seq<FDSet>, n: nat, q: Query)
    requires n <= |fs|
    ensures Of(FDSetsItems(fs, n), q) == FDSetsAnswer(fs, n, q)
  {
    hide FDItems, Of, Repeat, Itoa;
    if n == 0 {
      OfNone([], q);
    } else {
      FDSetsAnswers(fs, n - 1, q);
      FDAnswers(fs[n - 1], |fs[n - 1].fds|, q);
      OfConcat(FDSetsItems(fs, n - 1), FDItems(fs[n - 1], |fs[n - 1].fds|), q);
    }
  }

  /** The answer of the whole command line. */
  function Answer(s: Spec, q: Query): seq<string> {
    Of(ShapeItems(s), q) + Of(DeviceItems(s), q) + DisksAnswer(s.disks, |s.disks|, q) + NICsAnswer(|s.nics|, q) +
    ConsoleAnswer(s, q) + MonitorsAnswer(s.monitors, |s.monitors|, q) + FDSetsAnswer(s.fdSets, |s.fdSets|, q)
  }

  lemma FrontAnswers(s: Spec, q: Query)
    ensures Of(HeadItems(s) + ShapeItems(s) + CHIPSET + BootItems(s), q) == Of(ShapeItems(s), q)
  {
    HeadAnswers(s, q);
    ChipsetAnswers(q);
    BootAnswers(s, q);
    OfConcat(HeadItems(s), ShapeItems(s), q);
    OfConcat(HeadItems(s) + ShapeItems(s), CHIPSET, q);
    OfConcat(HeadItems(s) + ShapeItems(s) + CHIPSET, BootItems(s), q);
  }

  lemma AllAnswers(s: Spec, q: Query)
    ensures Of(AllItems(s), q) == Answer(s, q)
  {
    hide Of, HeadItems, ShapeItems, BootItems, DeviceItems, DisksItems, NICsItems, ConsoleItems, MonitorsItems,
         FDSetsItems, IncomingItems, DisksAnswer, NICsAnswer, ConsoleAnswer, MonitorsAnswer, FDSetsAnswer;
    FrontAnswers(s, q);
    BootAnswers(s, q);
    DisksAnswers(s.disks, |s.disks|, q);
    NICsAnswers(s.nics, |s.nics|, q);
    ConsoleAnswers(s, q);
    MonitorsAnswers(s.monitors, |s.monitors|, q);
    FDSetsAnswers(s.fdSets, |s.fdSets|, q);
    var items := HeadItems(s) + ShapeItems(s) + CHIPSET + BootItems(s);
    OfConcat(items, DeviceItems(s), q);
    items := items + DeviceItems(s);
    OfConcat(items, DisksItems(s.disks, |s.disks|), q);
    items := items + DisksItems(s.disks, |s.disks|);
    OfConcat(items, NICsItems(s.nics, |s.nics|), q);
    items := items + NICsItems(s.nics, |s.nics|);
    OfConcat(items, ConsoleItems(s), q);
    items := items + ConsoleItems(s);
    OfConcat(items, MonitorsItems(s.monitors, |s.monitors|), q);
    items := items + MonitorsItems(s.monitors, |s.monitors|);
    OfConcat(items, FDSetsItems(s.fdSets, |s.fdSets|), q);
    items := items + FDSetsItems(s.fdSets, |s.fdSets|);
    OfConcat(items, IncomingItems(s), q);
  }
}
