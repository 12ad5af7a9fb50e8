/** That the command line of an accepted machine is read by QEMU as the items it was made of,
    whatever the caller's strings hold. */
module Readback {
  import opened Text
  import opened QemuOptions
  import opened Argv
  import opened Machine
  import opened Args

  // ----- values without a comma

  lemma IntClean(n: int)
    ensures NoComma(Itoa(n))
  {
    ItoaShape(n);
    forall i | 0 <= i < |Itoa(n)| ensures Itoa(n)[i] != ',' {
      assert Itoa(n)[i] in Itoa(n);
    }
  }

  lemma SlotClean(n: nat)
    ensures NoComma("0x" + Hex(n))
  {
    NumeralShape(n, 16);
    forall i | 0 <= i < |Hex(n)| ensures Hex(n)[i] != ',' {
      assert Hex(n)[i] in Hex(n);
    }
  }

  lemma PathClean(id: int)
    ensures NoComma(FDSetPath(id))
  {
    IntClean(id);
  }

  lemma TopNameClean(i: nat)
    ensures NoComma(NodeName(i, 0))
  {
    IntClean(i);
    assert [Itoa(i)] + DepthSuffix(0) == [Itoa(i)];
  }

  lemma MacClean(n: NIC)
    requires NICOk(n)
    ensures NoComma(n.mac)
  {
  }

  lemma WellConcat(a: seq<Prop>, b: seq<Prop>)
    requires AllWellWritten(a) && AllWellWritten(b)
    ensures AllWellWritten(a + b)
  {
  }

  // ----- the properties the machine writes

  lemma AccelWell(s: Spec)
    requires NamesOk(s)
    ensures AllWellWritten(AccelProps(s))
  {
    PathClean(s.kvmFDSet);
  }

  lemma FixedWell()
    ensures AllWellWritten(VMGENID) && AllWellWritten(RngProps()) && AllWellWritten(ScsiProps())
  {
    hide Hex;
    SlotClean(SLOT_RNG);
    SlotClean(SLOT_HOTPLUG);
  }

  lemma BalloonWell()
    ensures AllWellWritten(BalloonProps())
  {
    hide Hex;
    SlotClean(SLOT_BALLOON);
    BalloonKeys();
    ModernWell();
  }

  lemma ModernWell()
    ensures WellWritten(MODERN)
  {
  }

  lemma BalloonKeys()
    ensures WellWritten(Word("virtio-balloon-pci")) && WellWritten(Plain("free-page-reporting", "on"))
    ensures WellWritten(Plain("deflate-on-oom", "on")) && Clean("addr")
  {
  }

  lemma VirtioMemWell()
    ensures AllWellWritten(VirtioMemProps())
  {
    hide Hex;
    SlotClean(SLOT_MEM);
    VirtioMemKeys();
    ModernWell();
  }

  lemma VirtioMemKeys()
    ensures WellWritten(Word("virtio-mem-pci")) && WellWritten(Plain("id", "vmem0"))
    ensures WellWritten(Plain("memdev", "mem.growth")) && WellWritten(Plain("requested-size", "0")) && Clean("addr")
  {
  }

  lemma VsockWell(s: Spec)
    ensures AllWellWritten(VsockProps(s))
  {
    hide Hex, Itoa;
    SlotClean(SLOT_VSOCK);
    IntClean(s.vsockCID);
    IntClean(s.vsockFD);
  }

  lemma GrowthWell(s: Spec)
    ensures AllWellWritten(GrowthProps(s))
  {
    hide Itoa;
    IntClean(s.maxMB - s.sizeMB);
  }

  lemma BlkWell(d: Disk, i: nat)
    ensures AllWellWritten(BlkProps(d, i))
  {
    hide Hex, NodeName;
    TopNameClean(i);
    SlotClean(SLOT_DISK_BASE + i);
  }

  lemma DriveWell(d: Disk, i: nat)
    requires IsFormat(d.format)
    ensures AllWellWritten(DriveProps(d, i))
  {
    hide NodeName;
    DriveKeys();
    DriveTailKeys();
    DriveHead(d, i);
    hide WellWritten, Escape;
    var a := [Escaped("file", d.path), Plain("if", "none"), Plain("id", NodeName(i, 0)), Plain("format", d.format)];
    var b := [Plain("aio", "io_uring"), Plain("discard", "unmap"), Plain("file.drop-cache", "off")];
    var c := if d.directOverBacking then [Plain("cache.direct", "on"), Plain("backing.cache.direct", "off")] else [];
    var e := if d.readonly then [Plain("readonly", "on")] else [];
    var f := if d.locking then [Plain("file.locking", "on")] else [];
    WellConcat(a, b);
    WellConcat(a + b, c);
    WellConcat(a + b + c, e);
    WellConcat(a + b + c + e, f);
    assert DriveProps(d, i) == a + b + c + e + f;
  }

  lemma DriveHead(d: Disk, i: nat)
    requires IsFormat(d.format)
    ensures WellWritten(Escaped("file", d.path)) && WellWritten(Plain("id", NodeName(i, 0)))
    ensures WellWritten(Plain("format", d.format))
  {
    hide NodeName;
    TopNameClean(i);
    DriveKeys();
  }

  lemma DriveKeys()
    ensures Clean("file") && WellWritten(Plain("if", "none")) && Clean("id") && Clean("format")
    ensures WellWritten(Plain("aio", "io_uring")) && WellWritten(Plain("discard", "unmap"))
  {
  }

  lemma DriveTailKeys()
    ensures WellWritten(Plain("file.drop-cache", "off")) && WellWritten(Plain("cache.direct", "on"))
    ensures WellWritten(Plain("backing.cache.direct", "off")) && WellWritten(Plain("readonly", "on"))
    ensures WellWritten(Plain("file.locking", "on"))
  {
    hide WellWritten;
    DriveCacheKeys();
    DriveModeKeys();
  }

  lemma DriveCacheKeys()
    ensures WellWritten(Plain("backing.cache.direct", "off")) && WellWritten(Plain("cache.direct", "on"))
  {
  }

  lemma DriveModeKeys()
    ensures WellWritten(Plain("file.drop-cache", "off")) && WellWritten(Plain("readonly", "on"))
    ensures WellWritten(Plain("file.locking", "on"))
  {
  }

  lemma NetdevWell(n: NIC, i: nat)
    ensures AllWellWritten(NetdevProps(n, i))
  {
    hide Hex, Itoa;
    IntClean(i);
    IntClean(n.tapFD);
    IntClean(n.vhostFD);
  }

  lemma NetWell(n: NIC, i: nat)
    requires NICOk(n)
    ensures AllWellWritten(NetProps(n, i))
  {
    hide Hex, Itoa;
    IntClean(i);
    IntClean(n.mtu);
    MacClean(n);
    SlotClean(SLOT_NIC_BASE + i);
    var a := [Word("virtio-net-pci"), Plain("netdev", NetName(i)), Plain("mac", n.mac)];
    var b := [Plain("romfile", ""), MODERN, Slot(SLOT_NIC_BASE + i)];
    var c := if n.mtu > 0 then [Plain("host_mtu", Itoa(n.mtu))] else [];
    assert AllWellWritten(a);
    assert AllWellWritten(b);
    WellConcat(a, b);
    WellConcat(a + b, c);
    assert NetProps(n, i) == a + b + c;
  }

  lemma ConsoleWell(s: Spec)
    ensures AllWellWritten(ConsoleProps(s))
  {
    PathClean(s.serialFDSet);
  }

  lemma QmpWell(m: Monitor, i: nat)
    ensures AllWellWritten(QmpChardevProps(m, i)) && AllWellWritten(QmpMonitorProps(i))
  {
    hide Itoa;
    IntClean(i);
    IntClean(m.fd);
  }

  lemma FDWell(id: int, fd: FD)
    ensures AllWellWritten(FDProps(id, fd))
  {
    hide Itoa;
    IntClean(id);
    IntClean(fd.num);
  }

  // ----- the items

  lemma ReadableConcat(a: seq<Item>, b: seq<Item>)
    requires AllReadable(a) && AllReadable(b)
    ensures AllReadable(a + b)
  {
  }

  lemma PlainFlags()
    ensures forall t :: Readable(Verbatim("-L", t)) && Readable(Verbatim("-bios", t)) &&
              Readable(Verbatim("-sandbox", t))
  {
  }

  lemma ShapeFlags()
    ensures forall t :: Readable(Verbatim("-machine", t)) && Readable(Verbatim("-cpu", t)) &&
              Readable(Verbatim("-smp", t))
    ensures forall t :: Readable(Verbatim("-m", t))
  {
  }

  lemma HeadReadable(s: Spec)
    ensures AllReadable(HeadItems(s))
  {
    PlainFlags();
  }

  lemma ShapeReadable(s: Spec)
    requires NamesOk(s)
    ensures AllReadable(ShapeItems(s))
  {
    ShapeFlags();
    AccelWell(s);
  }

  lemma ChipsetReadable()
    ensures AllReadable(CHIPSET)
  {
    assert Readable(Verbatim("-global", CHIPSET[0].text));
  }

  lemma BootReadable(s: Spec)
    ensures AllReadable(BootItems(s)) && AllReadable(ConsoleItems(s)) && AllReadable(IncomingItems(s))
  {
    hide ConsoleProps, AllWellWritten, Argv.Readable;
    BootFlags(s.kernel);
    BootFlags(s.initrd);
    BootFlags(Cmdline.Line(s.cmdline));
    BootFlags(s.incoming);
    BootFlags(if s.serialFDSet != 0 then "chardev:serial0" else if s.serial != "" then s.serial else "none");
    ConsoleReadable(s);
  }

  lemma BootFlags(t: string)
    ensures Readable(Verbatim("-kernel", t)) && Readable(Verbatim("-initrd", t)) && Readable(Verbatim("-append", t))
    ensures Readable(Verbatim("-incoming", t)) && Readable(Verbatim("-serial", t))
  {
  }

  lemma ConsoleReadable(s: Spec)
    ensures Readable(Listed("-chardev", ConsoleProps(s)))
  {
    hide AllWellWritten, FDSetPath;
    ConsoleWell(s);
  }

  lemma DevicesReadable(s: Spec)
    ensures AllReadable(DeviceItems(s))
  {
    FixedWell();
    BalloonWell();
    VirtioMemWell();
    VsockWell(s);
    GrowthWell(s);
    ReadableConcat(FixedDeviceItems(), VsockItems(s));
    ReadableConcat(FixedDeviceItems() + VsockItems(s), GrowthItems(s));
    ReadableConcat(FixedDeviceItems() + VsockItems(s) + GrowthItems(s), HotplugItems(s));
  }

  lemma {:induction false} BlocksReadable(nodes: seq<Node>)
    ensures AllReadable(Blocks(nodes))
  {
    if nodes != [] {
      BlocksReadable(nodes[1..]);
    }
  }

  lemma DiskReadable(d: Disk, i: nat, ids: set<int>)
    requires DiskOk(d, ids)
    ensures AllReadable(DiskItems(d, i))
  {
    hide ChainNodes, AllWellWritten, NodeName, Slot;
    BlkWell(d, i);
    if d.chain != [] {
      BlocksReadable(ChainNodes(d, i, 0));
    } else {
      DriveWell(d, i);
    }
  }

  lemma {:induction false} DisksReadable(s: Spec, n: nat)
    requires n <= |s.disks| && forall i | 0 <= i < n :: DiskOk(s.disks[i], SetIds(s.fdSets))
    ensures AllReadable(DisksItems(s.disks, n))
  {
    hide DiskItems, DiskOk, SetIds, Argv.Readable;
    if n > 0 {
      DisksReadable(s, n - 1);
      DiskReadable(s.disks[n - 1], n - 1, SetIds(s.fdSets));
      ReadableConcat(DisksItems(s.disks, n - 1), DiskItems(s.disks[n - 1], n - 1));
    }
  }

  lemma NICReadable(n: NIC, i: nat)
    requires NICOk(n)
    ensures AllReadable(NICItems(n, i))
  {
    hide AllWellWritten, NetName, Slot, NICOk, Itoa;
    NetdevWell(n, i);
    NetWell(n, i);
  }

  lemma {:induction false} NICsReadable(ns: seq<NIC>, n: nat)
    requires n <= |ns| && forall i | 0 <= i < n :: NICOk(ns[i])
    ensures AllReadable(NICsItems(ns, n))
  {
    hide NICItems, NICOk, Argv.Readable;
    if n > 0 {
      NICsReadable(ns, n - 1);
      NICReadable(ns[n - 1], n - 1);
      ReadableConcat(NICsItems(ns, n - 1), NICItems(ns[n - 1], n - 1));
    }
  }

  lemma MonitorReadable(m: Monitor, i: nat)
    ensures AllReadable(MonitorItems(m, i))
  {
    hide AllWellWritten, QmpName, Itoa;
    QmpWell(m, i);
  }

  lemma {:induction false} MonitorsReadable(ms: seq<Monitor>, n: nat)
    requires n <= |ms|
    ensures AllReadable(MonitorsItems(ms, n))
  {
    hide MonitorItems, Argv.Readable;
    if n > 0 {
      MonitorsReadable(ms, n - 1);
      MonitorReadable(ms[n - 1], n - 1);
      ReadableConcat(MonitorsItems(ms, n - 1), MonitorItems(ms[n - 1], n - 1));
    }
  }

  lemma {:induction false} FDsReadable(f: FDSet, n: nat)
    requires n <= |f.fds|
    ensures AllReadable(FDItems(f, n))
  {
    if n > 0 {
      FDsReadable(f, n - 1);
      FDWell(f.id, f.fds[n - 1]);
      ReadableConcat(FDItems(f, n - 1), [Listed("-add-fd", FDProps(f.id, f.fds[n - 1]))]);
    }
  }

  lemma {:induction false} FDSetsReadable(fs: seq<FDSet>, n: nat)
    requires n <= |fs|
    ensures AllReadable(FDSetsItems(fs, n))
  {
    if n > 0 {
      FDSetsReadable(fs, n - 1);
      FDsReadable(fs[n - 1], |fs[n - 1].fds|);
      ReadableConcat(FDSetsItems(fs, n - 1), FDItems(fs[n - 1], |fs[n - 1].fds|));
    }
  }

  lemma ItemsReadable(s: Spec)
    requires Accepts(s)
    ensures AllReadable(AllItems(s))
  {
    HeadReadable(s);
    ShapeReadable(s);
    ChipsetReadable();
    BootReadable(s);
    DevicesReadable(s);
    DisksReadable(s, |s.disks|);
    NICsReadable(s.nics, |s.nics|);
    MonitorsReadable(s.monitors, |s.monitors|);
    FDSetsReadable(s.fdSets, |s.fdSets|);
    var items := HeadItems(s);
    ReadableConcat(items, ShapeItems(s));
    items := items + ShapeItems(s);
    ReadableConcat(items, CHIPSET);
    items := items + CHIPSET;
    ReadableConcat(items, BootItems(s));
    items := items + BootItems(s);
    ReadableConcat(items, DeviceItems(s));
    items := items + DeviceItems(s);
    ReadableConcat(items, DisksItems(s.disks, |s.disks|));
    items := items + DisksItems(s.disks, |s.disks|);
    ReadableConcat(items, NICsItems(s.nics, |s.nics|));
    items := items + NICsItems(s.nics, |s.nics|);
    ReadableConcat(items, ConsoleItems(s));
    items := items + ConsoleItems(s);
    ReadableConcat(items, MonitorsItems(s.monitors, |s.monitors|));
    items := items + MonitorsItems(s.monitors, |s.monitors|);
    ReadableConcat(items, FDSetsItems(s.fdSets, |s.fdSets|));
    items := items + FDSetsItems(s.fdSets, |s.fdSets|);
    ReadableConcat(items, IncomingItems(s));
  }

  // ----- the sockets

  lemma UnnamedConcat(a: seq<Item>, b: seq<Item>)
    ensures Unnamed(a + b) <==> Unnamed(a) && Unnamed(b)
  {
    assert forall i | 0 <= i < |a| :: (a + b)[i] == a[i];
    assert forall i | 0 <= i < |b| :: (a + b)[|a| + i] == b[i];
  }

  lemma {:induction false} BlocksUnnamed(nodes: seq<Node>)
    ensures Unnamed(Blocks(nodes))
  {
    if nodes != [] {
      BlocksUnnamed(nodes[1..]);
      UnnamedConcat([Block(nodes[0])], Blocks(nodes[1..]));
    }
  }

  lemma DiskUnnamed(d: Disk, i: nat)
    ensures Unnamed(DiskItems(d, i))
  {
    hide ChainNodes, DriveProps, BlkProps;
    BlocksUnnamed(ChainNodes(d, i, 0));
    UnnamedConcat(if d.chain != [] then Blocks(ChainNodes(d, i, 0)) else [Listed("-drive", DriveProps(d, i))],
                  [Listed("-device", BlkProps(d, i))]);
  }

  lemma {:induction false} DisksUnnamed(ds: seq<Disk>, n: nat)
    requires n <= |ds|
    ensures Unnamed(DisksItems(ds, n))
  {
    hide DiskItems;
    if n > 0 {
      DisksUnnamed(ds, n - 1);
      DiskUnnamed(ds[n - 1], n - 1);
      UnnamedConcat(DisksItems(ds, n - 1), DiskItems(ds[n - 1], n - 1));
    }
  }

  lemma {:induction false} NICsUnnamed(ns: seq<NIC>, n: nat)
    requires n <= |ns|
    ensures Unnamed(NICsItems(ns, n))
  {
    hide NetProps, NetdevProps;
    if n > 0 {
      NICsUnnamed(ns, n - 1);
      UnnamedConcat(NICsItems(ns, n - 1), NICItems(ns[n - 1], n - 1));
    }
  }

  lemma {:induction false} FDsUnnamed(f: FDSet, n: nat)
    requires n <= |f.fds|
    ensures Unnamed(FDItems(f, n))
  {
    hide FDProps;
    if n > 0 {
      FDsUnnamed(f, n - 1);
      UnnamedConcat(FDItems(f, n - 1), [Listed("-add-fd", FDProps(f.id, f.fds[n - 1]))]);
    }
  }

  lemma {:induction false} FDSetsUnnamed(fs: seq<FDSet>, n: nat)
    requires n <= |fs|
    ensures Unnamed(FDSetsItems(fs, n))
  {
    hide FDItems;
    if n > 0 {
      FDSetsUnnamed(fs, n - 1);
      FDsUnnamed(fs[n - 1], |fs[n - 1].fds|);
      UnnamedConcat(FDSetsItems(fs, n - 1), FDItems(fs[n - 1], |fs[n - 1].fds|));
    }
  }

  lemma DevicesUnnamed(s: Spec)
    ensures Unnamed(DeviceItems(s))
  {
    hide VsockProps, GrowthProps, VirtioMemProps, ScsiProps, RngProps, BalloonProps, VMGENID;
    var a, b, c, d := FixedDeviceItems(), VsockItems(s), GrowthItems(s), HotplugItems(s);
    assert Unnamed(a) && Unnamed(b) && Unnamed(c) && Unnamed(d);
    UnnamedConcat(a, b);
    UnnamedConcat(a + b, c);
    UnnamedConcat(a + b + c, d);
  }

  lemma OthersUnnamed(s: Spec)
    ensures Unnamed(HeadItems(s)) && Unnamed(ShapeItems(s)) && Unnamed(CHIPSET) && Unnamed(BootItems(s))
    ensures Unnamed(ConsoleItems(s)) && Unnamed(IncomingItems(s))
  {
    hide AccelProps, ShapeOf, ConsoleProps;
  }

  predicate PathsUnnamed(ms: seq<Monitor>, n: nat)
    requires n <= |ms|
  {
    forall i | 0 <= i < n :: !NamesItsOption(ms[i].socket)
  }

  lemma MonitorUnnamed(m: Monitor, i: nat)
    ensures Unnamed(MonitorItems(m, i)) <==> !NamesItsOption(m.socket)
  {
    hide QmpChardevProps, QmpMonitorProps;
    if m.socket != "" {
      assert MonitorItems(m, i)[0] == Socket(m.socket);
    }
  }

  lemma {:induction false} MonitorsUnnamed(ms: seq<Monitor>, n: nat)
    requires n <= |ms|
    ensures Unnamed(MonitorsItems(ms, n)) <==> PathsUnnamed(ms, n)
  {
    hide MonitorItems, NamesItsOption;
    if n > 0 {
      MonitorsUnnamed(ms, n - 1);
      MonitorUnnamed(ms[n - 1], n - 1);
      UnnamedConcat(MonitorsItems(ms, n - 1), MonitorItems(ms[n - 1], n - 1));
    }
  }

  lemma SocketsAreMonitors(s: Spec)
    ensures Unnamed(AllItems(s)) <==> PathsUnnamed(s.monitors, |s.monitors|)
  {
    hide *;
    var items := HeadItems(s) + ShapeItems(s) + CHIPSET + BootItems(s) + DeviceItems(s) +
      DisksItems(s.disks, |s.disks|) + NICsItems(s.nics, |s.nics|) + ConsoleItems(s);
    FrontUnnamed(s);
    MonitorsUnnamed(s.monitors, |s.monitors|);
    FDSetsUnnamed(s.fdSets, |s.fdSets|);
    OthersUnnamed(s);
    UnnamedConcat(items, MonitorsItems(s.monitors, |s.monitors|));
    items := items + MonitorsItems(s.monitors, |s.monitors|);
    UnnamedConcat(items, FDSetsItems(s.fdSets, |s.fdSets|));
    items := items + FDSetsItems(s.fdSets, |s.fdSets|);
    UnnamedConcat(items, IncomingItems(s));
    AllItemsAre(s);
  }

  lemma AllItemsAre(s: Spec)
    ensures AllItems(s) == HeadItems(s) + ShapeItems(s) + CHIPSET + BootItems(s) + DeviceItems(s) +
      DisksItems(s.disks, |s.disks|) + NICsItems(s.nics, |s.nics|) + ConsoleItems(s) +
      MonitorsItems(s.monitors, |s.monitors|) + FDSetsItems(s.fdSets, |s.fdSets|) + IncomingItems(s)
  {
  }

  lemma FrontUnnamed(s: Spec)
    ensures Unnamed(HeadItems(s) + ShapeItems(s) + CHIPSET + BootItems(s) + DeviceItems(s) +
                    DisksItems(s.disks, |s.disks|) + NICsItems(s.nics, |s.nics|) + ConsoleItems(s))
  {
    hide *;
    OthersUnnamed(s);
    DevicesUnnamed(s);
    DisksUnnamed(s.disks, |s.disks|);
    NICsUnnamed(s.nics, |s.nics|);
    var items := HeadItems(s);
    UnnamedConcat(items, ShapeItems(s));
    items := items + ShapeItems(s);
    UnnamedConcat(items, CHIPSET);
    items := items + CHIPSET;
    UnnamedConcat(items, BootItems(s));
    items := items + BootItems(s);
    UnnamedConcat(items, DeviceItems(s));
    items := items + DeviceItems(s);
    UnnamedConcat(items, DisksItems(s.disks, |s.disks|));
    items := items + DisksItems(s.disks, |s.disks|);
    UnnamedConcat(items, NICsItems(s.nics, |s.nics|));
    items := items + NICsItems(s.nics, |s.nics|);
    UnnamedConcat(items, ConsoleItems(s));
  }

  /** No string a caller gives can be read as a flag, an option or part of one: whatever paths,
      serials, opaque names and file names an accepted spec holds, QEMU reads every item of the
      command line by itself. It reads the whole as it was meant, value for value, if and only if no
      monitor's socket path has an '=' before its first comma: of such a path QEMU takes the
      beginning for the name of an option, which doubling commas does not prevent. */
  lemma CommandLineIsReadBack(s: Spec)
    requires Accepts(s)
    ensures ReadArgv(RenderedAll(AllItems(s))) == Some(ReadAsAll(AllItems(s)))
    ensures ReadArgv(RenderedAll(AllItems(s))) == Some(MeantByAll(AllItems(s))) <==>
            forall i | 0 <= i < |s.monitors| :: !NamesItsOption(s.monitors[i].socket)
  {
    hide AllItems, RenderedAll, ReadArgv, ReadAsAll, MeantByAll, Unnamed, NamesItsOption, Accepts;
    ItemsReadable(s);
    ReadRenderedAll(AllItems(s));
    ReadAsMeant(AllItems(s));
    SocketsAreMonitors(s);
  }

  /** One character makes the difference. */
  lemma ASocketMisread()
    ensures NamesItsOption("/a=b") && !NamesItsOption("/a,b=c")
    ensures ReadAs(Socket("/a=b")) != MeantBy(Socket("/a=b"))
  {
    IndexOfFirst("/a", '=', "b");
    assert "/a" + ['='] + "b" == "/a=b";
    IndexOfAbsent("/a=b", ',');
    IndexOfFirst("/a", ',', "b=c");
    assert "/a" + [','] + "b=c" == "/a,b=c";
    IndexOfFirst("/a,b", '=', "c");
    assert "/a,b" + ['='] + "c" == "/a,b=c";
    NamedIsNotMeant(Socket("/a=b"));
    assert [Socket("/a=b")][0] == Socket("/a=b");
  }
}
