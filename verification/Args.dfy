/** The command line of a machine: the small compiler from a Spec to QEMU's arguments. Each
    part is first given as the items it means; the methods append the arguments, as the
    source does, and are proved to append exactly those items. */
module Args {
  import opened Text
  import opened QemuOptions
  import opened Argv
  import opened Machine
  import Cmdline

  const MODERN: Prop := Plain("disable-legacy", "on")

  function Slot(n: nat): Prop { Plain("addr", "0x" + Hex(n)) }

  function FDSetPath(id: int): string { "/dev/fdset/" + Itoa(id) }

  // ----- the machine-wide part

  function AccelProps(s: Spec): seq<Prop> {
    [Word(Accel(s))] + (if s.kvmFDSet == 0 then [] else [Plain("device", FDSetPath(s.kvmFDSet))])
  }

  const SANDBOX := "on,obsolete=deny,elevateprivileges=deny,spawn=deny,resourcecontrol=deny"

  function HeadItems(s: Spec): seq<Item> {
    [Verbatim("-L", s.firmware), Verbatim("-bios", Bios(s)), Bare("-nodefaults"), Bare("-nographic"),
     Verbatim("-sandbox", SANDBOX)]
  }

  function ShapeItems(s: Spec): seq<Item> {
    var shape := ShapeOf(s);
    [Verbatim("-machine", shape.machine), Listed("-accel", AccelProps(s)), Verbatim("-cpu", shape.cpu),
     Verbatim("-smp", shape.smp), Verbatim("-m", shape.memory)]
  }

  const CHIPSET: seq<Item> := [
    Verbatim("-global", "ICH9-LPC.disable_s3=1"),
    Verbatim("-global", "ICH9-LPC.disable_s4=1"),
    Verbatim("-global", "ICH9-LPC.acpi-pci-hotplug-with-bridge-support=off"),
    Bare("-no-reboot")]

  function BootItems(s: Spec): seq<Item> {
    [Verbatim("-kernel", s.kernel)] +
    (if s.initrd != "" then [Verbatim("-initrd", s.initrd)] else []) +
    [Verbatim("-append", Cmdline.Line(s.cmdline))]
  }

  // ----- the devices every machine may have

  const VMGENID: seq<Prop> := [Word("vmgenid"), Plain("guid", "auto")]

  function RngProps(): seq<Prop> { [Word("virtio-rng-pci"), MODERN, Slot(SLOT_RNG)] }

  function BalloonProps(): seq<Prop> {
    [Word("virtio-balloon-pci"), Plain("free-page-reporting", "on"), Plain("deflate-on-oom", "on"),
     MODERN, Slot(SLOT_BALLOON)]
  }

  function VsockProps(s: Spec): seq<Prop> {
    [Word("vhost-vsock-pci"), Plain("guest-cid", Itoa(s.vsockCID)), MODERN, Slot(SLOT_VSOCK)] +
    (if s.vsockFD != 0 then [Plain("vhostfd", Itoa(s.vsockFD))] else [])
  }

  function GrowthProps(s: Spec): seq<Prop> {
    [Word("memory-backend-ram"), Plain("id", "mem.growth"), Plain("size", Itoa(s.maxMB - s.sizeMB) + "M")]
  }

  function VirtioMemProps(): seq<Prop> {
    [Word("virtio-mem-pci"), Plain("id", "vmem0"), Plain("memdev", "mem.growth"), Plain("requested-size", "0"),
     MODERN, Slot(SLOT_MEM)]
  }

  function ScsiProps(): seq<Prop> { [Word("virtio-scsi-pci"), Plain("id", "scsi0"), MODERN, Slot(SLOT_HOTPLUG)] }

  function FixedDeviceItems(): seq<Item> {
    [Listed("-device", VMGENID), Listed("-device", RngProps()), Listed("-device", BalloonProps())]
  }

  function VsockItems(s: Spec): seq<Item> {
    if s.vsockCID != 0 then [Listed("-device", VsockProps(s))] else []
  }

  function GrowthItems(s: Spec): seq<Item> {
    if s.maxMB > s.sizeMB then [Listed("-object", GrowthProps(s)), Listed("-device", VirtioMemProps())] else []
  }

  function HotplugItems(s: Spec): seq<Item> {
    if s.hotplugDisks > 0 then [Listed("-device", ScsiProps())] else []
  }

  function DeviceItems(s: Spec): seq<Item> {
    FixedDeviceItems() + VsockItems(s) + GrowthItems(s) + HotplugItems(s)
  }

  // ----- disks

  function DepthSuffix(j: nat): seq<string> { if j == 0 then [] else [Itoa(j)] }

  /** blk<i> for the top of disk i and blk<i>-<j> for the image j below it. */
  function NodeName(i: nat, j: nat): string {
    "blk" + Join([Itoa(i)] + DepthSuffix(j), "-")
  }

  function FileName(i: nat, j: nat): string {
    "blk" + Join([Itoa(i)] + DepthSuffix(j) + ["file"], "-")
  }

  function FileOf(d: Disk, i: nat, j: nat): Node
    requires j < |d.chain|
  {
    FileNode(FileName(i, j), FDSetPath(d.chain[j].fdSet), "io_uring", "unmap",
             d.readonly || j > 0, false, if j == 0 && d.locking then "on" else "",
             if d.directOverBacking then Some(j == 0) else None)
  }

  function FormatOf(d: Disk, i: nat, j: nat): Node
    requires j < |d.chain|
  {
    FormatNode(d.chain[j].format, NodeName(i, j), FileName(i, j), d.readonly || j > 0, "unmap",
               if j < |d.chain| - 1 then Named(NodeName(i, j + 1))
               else if d.chain[j].format != "raw" then Null else Absent)
  }

  /** The nodes of disk i from its base up to the image at depth j. */
  function ChainNodes(d: Disk, i: nat, j: nat): seq<Node>
    decreases |d.chain| - j
  {
    if j >= |d.chain| then [] else ChainNodes(d, i, j + 1) + [FileOf(d, i, j), FormatOf(d, i, j)]
  }

  function Blocks(nodes: seq<Node>): seq<Item> {
    if nodes == [] then [] else [Block(nodes[0])] + Blocks(nodes[1..])
  }

  function DriveProps(d: Disk, i: nat): seq<Prop> {
    [Escaped("file", d.path), Plain("if", "none"), Plain("id", NodeName(i, 0)), Plain("format", d.format),
     Plain("aio", "io_uring"), Plain("discard", "unmap"), Plain("file.drop-cache", "off")] +
    (if d.directOverBacking then [Plain("cache.direct", "on"), Plain("backing.cache.direct", "off")] else []) +
    (if d.readonly then [Plain("readonly", "on")] else []) +
    (if d.locking then [Plain("file.locking", "on")] else [])
  }

  function BlkProps(d: Disk, i: nat): seq<Prop> {
    [Word("virtio-blk-pci"), Plain("drive", NodeName(i, 0)), MODERN, Slot(SLOT_DISK_BASE + i)] +
    (if d.serial != "" then [Escaped("serial", d.serial)] else [])
  }

  function DiskItems(d: Disk, i: nat): seq<Item> {
    (if d.chain != [] then Blocks(ChainNodes(d, i, 0)) else [Listed("-drive", DriveProps(d, i))]) +
    [Listed("-device", BlkProps(d, i))]
  }

  /** The first n disks. */
  function DisksItems(ds: seq<Disk>, n: nat): seq<Item>
    requires n <= |ds|
  {
    if n == 0 then [] else DisksItems(ds, n - 1) + DiskItems(ds[n - 1], n - 1)
  }

  // ----- NICs

  function NetName(i: nat): string { "net" + Itoa(i) }

  function NetdevProps(n: NIC, i: nat): seq<Prop> {
    [Word("tap"), Plain("id", NetName(i)), Plain("fd", Itoa(n.tapFD)), Plain("vhost", "on")] +
    (if n.vhostFD != 0 then [Plain("vhostfd", Itoa(n.vhostFD))] else [])
  }

  function NetProps(n: NIC, i: nat): seq<Prop> {
    [Word("virtio-net-pci"), Plain("netdev", NetName(i)), Plain("mac", n.mac), Plain("romfile", ""),
     MODERN, Slot(SLOT_NIC_BASE + i)] +
    (if n.mtu > 0 then [Plain("host_mtu", Itoa(n.mtu))] else [])
  }

  function NICItems(n: NIC, i: nat): seq<Item> {
    [Listed("-netdev", NetdevProps(n, i)), Listed("-device", NetProps(n, i))]
  }

  function NICsItems(ns: seq<NIC>, n: nat): seq<Item>
    requires n <= |ns|
  {
    if n == 0 then [] else NICsItems(ns, n - 1) + NICItems(ns[n - 1], n - 1)
  }

  // ----- the console, the monitors, the descriptor sets, the incoming state

  function ConsoleProps(s: Spec): seq<Prop> {
    [Word("file"), Plain("id", "serial0"), Plain("path", FDSetPath(s.serialFDSet)), Plain("append", "on")]
  }

  function ConsoleItems(s: Spec): seq<Item> {
    if s.serialFDSet != 0 then [Listed("-chardev", ConsoleProps(s)), Verbatim("-serial", "chardev:serial0")]
    else [Verbatim("-serial", if s.serial != "" then s.serial else "none")]
  }

  function QmpName(i: nat): string { "qmp" + Itoa(i) }

  function QmpChardevProps(m: Monitor, i: nat): seq<Prop> {
    [Word("socket"), Plain("id", QmpName(i)), Plain("fd", Itoa(m.fd)), Plain("server", "on"), Plain("wait", "off")]
  }

  function QmpMonitorProps(i: nat): seq<Prop> {
    [Word("monitor-qmp"), Plain("id", "mon-" + QmpName(i)), Plain("chardev", QmpName(i))]
  }

  function MonitorItems(m: Monitor, i: nat): seq<Item> {
    if m.socket != "" then [Socket(m.socket)]
    else [Listed("-chardev", QmpChardevProps(m, i)), Listed("-object", QmpMonitorProps(i))]
  }

  function MonitorsItems(ms: seq<Monitor>, n: nat): seq<Item>
    requires n <= |ms|
  {
    if n == 0 then [] else MonitorsItems(ms, n - 1) + MonitorItems(ms[n - 1], n - 1)
  }

  function FDProps(id: int, fd: FD): seq<Prop> {
    [Plain("fd", Itoa(fd.num)), Plain("set", Itoa(id))] +
    (if fd.note != "" then [Escaped("opaque", fd.note)] else [])
  }

  function FDItems(f: FDSet, n: nat): seq<Item>
    requires n <= |f.fds|
  {
    if n == 0 then [] else FDItems(f, n - 1) + [Listed("-add-fd", FDProps(f.id, f.fds[n - 1]))]
  }

  function FDSetsItems(fs: seq<FDSet>, n: nat): seq<Item>
    requires n <= |fs|
  {
    if n == 0 then [] else FDSetsItems(fs, n - 1) + FDItems(fs[n - 1], |fs[n - 1].fds|)
  }

  function IncomingItems(s: Spec): seq<Item> {
    if s.incoming != "" then [Verbatim("-incoming", s.incoming)] else []
  }

  function AllItems(s: Spec): seq<Item> {
    HeadItems(s) + ShapeItems(s) + CHIPSET + BootItems(s) + DeviceItems(s) +
    DisksItems(s.disks, |s.disks|) + NICsItems(s.nics, |s.nics|) + ConsoleItems(s) +
    MonitorsItems(s.monitors, |s.monitors|) + FDSetsItems(s.fdSets, |s.fdSets|) + IncomingItems(s)
  }

  // ----- the methods that append

  /** Appending an item's flag and value keeps the arguments those of the items so far. */
  lemma Put(args: seq<Arg>, out: seq<Arg>, done: seq<Item>, i: Item)
    requires out == args + RenderedAll(done)
    ensures out + Rendered(i) == args + RenderedAll(done + [i])
  {
    PutAll(args, out, done, [i]);
    RenderedOne(i);
  }

  lemma PutAll(args: seq<Arg>, out: seq<Arg>, done: seq<Item>, more: seq<Item>)
    requires out == args + RenderedAll(done)
    ensures out + RenderedAll(more) == args + RenderedAll(done + more)
  {
    hide RenderedAll;
    RenderedConcat(done, more);
  }

  lemma RenderedNone()
    ensures RenderedAll([]) == []
  {
  }

  /** A flag and its text, put at the end. */
  method Append(args: seq<Arg>, flag: string, text: string, ghost from: seq<Arg>, ghost done: seq<Item>, ghost i: Item)
    returns (out: seq<Arg>)
    requires args == from + RenderedAll(done)
    requires Rendered(i) == [Str(flag), Str(text)]
    ensures out == from + RenderedAll(done + [i])
  {
    Put(from, args, done, i);
    out := args + [Str(flag), Str(text)];
  }

  /** A flag and its options as one string, put at the end. */
  method AppendProps(args: seq<Arg>, flag: string, props: seq<Prop>, ghost from: seq<Arg>, ghost done: seq<Item>)
    returns (out: seq<Arg>)
    requires args == from + RenderedAll(done)
    ensures out == from + RenderedAll(done + [Listed(flag, props)])
  {
    Put(from, args, done, Listed(flag, props));
    out := args + [Str(flag), Str(Render(props))];
  }

  method AppendChipset(args: seq<Arg>) returns (out: seq<Arg>)
    ensures out == args + RenderedAll(CHIPSET)
  {
    ghost var done := [];
    out := args;
    var globals := ["ICH9-LPC.disable_s3=1", "ICH9-LPC.disable_s4=1",
                    "ICH9-LPC.acpi-pci-hotplug-with-bridge-support=off"];
    for i := 0 to |globals|
      invariant out == args + RenderedAll(done) && done == CHIPSET[..i]
    {
      out := Append(out, "-global", globals[i], args, done, Verbatim("-global", globals[i]));
      done := done + [Verbatim("-global", globals[i])];
    }
    Put(args, out, done, Bare("-no-reboot"));
    assert CHIPSET == done + [Bare("-no-reboot")];
    out := out + [Str("-no-reboot")];
  }

  method AppendBoot(s: Spec, args: seq<Arg>) returns (out: seq<Arg>)
    ensures out == args + RenderedAll(BootItems(s))
  {
    ghost var done := [];
    out := Append(args, "-kernel", s.kernel, args, done, Verbatim("-kernel", s.kernel));
    done := done + [Verbatim("-kernel", s.kernel)];
    if s.initrd != "" {
      out := Append(out, "-initrd", s.initrd, args, done, Verbatim("-initrd", s.initrd));
      done := done + [Verbatim("-initrd", s.initrd)];
    }
    var line := Cmdline.String(s.cmdline);
    out := Append(out, "-append", line, args, done, Verbatim("-append", line));
    assert BootItems(s) == done + [Verbatim("-append", line)];
  }

  method AppendDevices(s: Spec, args: seq<Arg>) returns (out: seq<Arg>)
    ensures out == args + RenderedAll(DeviceItems(s))
  {
    ghost var done := [];
    out := AppendProps(args, "-device", VMGENID, args, done);
    done := done + [Listed("-device", VMGENID)];
    out := AppendProps(out, "-device", RngProps(), args, done);
    done := done + [Listed("-device", RngProps())];
    out := AppendProps(out, "-device", BalloonProps(), args, done);
    done := done + [Listed("-device", BalloonProps())];
    assert done == FixedDeviceItems();
    if s.vsockCID != 0 {
      var dev := [Word("vhost-vsock-pci"), Plain("guest-cid", Itoa(s.vsockCID)), MODERN, Slot(SLOT_VSOCK)];
      if s.vsockFD != 0 {
        dev := dev + [Plain("vhostfd", Itoa(s.vsockFD))];
      }
      out := AppendProps(out, "-device", dev, args, done);
      assert dev == VsockProps(s);
      done := done + [Listed("-device", dev)];
    }
    assert done == FixedDeviceItems() + VsockItems(s);
    if s.maxMB > s.sizeMB {
      out := AppendProps(out, "-object", GrowthProps(s), args, done);
      done := done + [Listed("-object", GrowthProps(s))];
      out := AppendProps(out, "-device", VirtioMemProps(), args, done);
      done := done + [Listed("-device", VirtioMemProps())];
    }
    assert done == FixedDeviceItems() + VsockItems(s) + GrowthItems(s);
    if s.hotplugDisks > 0 {
      out := AppendProps(out, "-device", ScsiProps(), args, done);
      done := done + [Listed("-device", ScsiProps())];
    }
    assert done == DeviceItems(s);
  }

  /** Disk.chainArgs, from the base up. */
  method ChainArgs(d: Disk, i: nat) returns (args: seq<Arg>)
    ensures args == RenderedAll(Blocks(ChainNodes(d, i, 0)))
  {
    args := [];
    var j := |d.chain|;
    while j > 0
      invariant 0 <= j <= |d.chain|
      invariant args == RenderedAll(Blocks(ChainNodes(d, i, j)))
    {
      j := j - 1;
      var img := d.chain[j];
      var readOnly := d.readonly || j > 0;
      var file := FileNode(FileName(i, j), FDSetPath(img.fdSet), "io_uring", "unmap", readOnly, false, "", None);
      if j == 0 && d.locking {
        file := file.(locking := "on");
      }
      if d.directOverBacking {
        file := file.(cache := Some(j == 0));
      }
      var format := FormatNode(img.format, NodeName(i, j), FileName(i, j), readOnly, "unmap", Absent);
      if j < |d.chain| - 1 {
        format := format.(backing := Named(NodeName(i, j + 1)));
      } else if img.format != "raw" {
        format := format.(backing := Null);
      }
      BlocksRendered(ChainNodes(d, i, j + 1), file, format);
      args := args + [Str("-blockdev"), Json(file), Str("-blockdev"), Json(format)];
    }
  }

  method AppendDisk(d: Disk, i: nat, args: seq<Arg>) returns (out: seq<Arg>)
    ensures out == args + RenderedAll(DiskItems(d, i))
  {
    ghost var done := [];
    if |d.chain| != 0 {
      var chain := ChainArgs(d, i);
      out := args + chain;
      done := Blocks(ChainNodes(d, i, 0));
    } else {
      done := [Listed("-drive", DriveProps(d, i))];
      RenderedOne(done[0]);
      out := args + [Str("-drive"), Str(Render(DriveProps(d, i)))];
    }
    var dev := [Word("virtio-blk-pci"), Plain("drive", NodeName(i, 0)), MODERN, Slot(SLOT_DISK_BASE + i)];
    if d.serial != "" {
      dev := dev + [Escaped("serial", d.serial)];
    }
    assert dev == BlkProps(d, i);
    out := AppendProps(out, "-device", dev, args, done);
  }

  method AppendDisks(s: Spec, args: seq<Arg>) returns (out: seq<Arg>)
    ensures out == args + RenderedAll(DisksItems(s.disks, |s.disks|))
  {
    hide RenderedAll, DiskItems;
    RenderedNone();
    out := args;
    for i := 0 to |s.disks|
      invariant out == args + RenderedAll(DisksItems(s.disks, i))
    {
      PutAll(args, out, DisksItems(s.disks, i), DiskItems(s.disks[i], i));
      out := AppendDisk(s.disks[i], i, out);
    }
  }

  method AppendNICs(s: Spec, args: seq<Arg>) returns (out: seq<Arg>)
    ensures out == args + RenderedAll(NICsItems(s.nics, |s.nics|))
  {
    hide RenderedAll, Render, Hex, Itoa, NetName;
    RenderedNone();
    out := args;
    for i := 0 to |s.nics|
      invariant out == args + RenderedAll(NICsItems(s.nics, i))
    {
      var n := s.nics[i];
      var dev := [Word("virtio-net-pci"), Plain("netdev", NetName(i)), Plain("mac", n.mac), Plain("romfile", ""),
                  MODERN, Slot(SLOT_NIC_BASE + i)];
      if n.mtu > 0 {
        dev := dev + [Plain("host_mtu", Itoa(n.mtu))];
      }
      var netdev := [Word("tap"), Plain("id", NetName(i)), Plain("fd", Itoa(n.tapFD)), Plain("vhost", "on")];
      if n.vhostFD != 0 {
        netdev := netdev + [Plain("vhostfd", Itoa(n.vhostFD))];
      }
      assert dev == NetProps(n, i) && netdev == NetdevProps(n, i);
      ghost var done := NICsItems(s.nics, i);
      out := AppendProps(out, "-netdev", netdev, args, done);
      done := done + [Listed("-netdev", netdev)];
      out := AppendProps(out, "-device", dev, args, done);
      assert done + [Listed("-device", dev)] == NICsItems(s.nics, i + 1);
    }
  }

  method AppendConsole(s: Spec, args: seq<Arg>) returns (out: seq<Arg>)
    ensures out == args + RenderedAll(ConsoleItems(s))
  {
    if s.serialFDSet != 0 {
      out := AppendProps(args, "-chardev", ConsoleProps(s), args, []);
      out := Append(out, "-serial", "chardev:serial0", args, [Listed("-chardev", ConsoleProps(s))],
                    Verbatim("-serial", "chardev:serial0"));
      assert ConsoleItems(s) == [Listed("-chardev", ConsoleProps(s))] + [Verbatim("-serial", "chardev:serial0")];
    } else if s.serial != "" {
      out := Append(args, "-serial", s.serial, args, [], Verbatim("-serial", s.serial));
      assert ConsoleItems(s) == [] + [Verbatim("-serial", s.serial)];
    } else {
      out := Append(args, "-serial", "none", args, [], Verbatim("-serial", "none"));
      assert ConsoleItems(s) == [] + [Verbatim("-serial", "none")];
    }
  }

  method AppendSocket(args: seq<Arg>, path: string, ghost from: seq<Arg>, ghost done: seq<Item>)
    returns (out: seq<Arg>)
    requires args == from + RenderedAll(done)
    ensures out == from + RenderedAll(done + [Socket(path)])
  {
    Put(from, args, done, Socket(path));
    out := args + [Str("-qmp"), Str(Join(["unix:" + Escape(path), "server=on", "wait=off"], ","))];
  }

  method AppendMonitor(m: Monitor, i: nat, args: seq<Arg>) returns (out: seq<Arg>)
    ensures out == args + RenderedAll(MonitorItems(m, i))
  {
    if m.socket != "" {
      out := AppendSocket(args, m.socket, args, []);
      assert MonitorItems(m, i) == [] + [Socket(m.socket)];
      return;
    }
    var id := QmpName(i);
    var chardev := [Word("socket"), Plain("id", id), Plain("fd", Itoa(m.fd)), Plain("server", "on"),
                    Plain("wait", "off")];
    var monitor := [Word("monitor-qmp"), Plain("id", "mon-" + id), Plain("chardev", id)];
    out := AppendProps(args, "-chardev", chardev, args, []);
    out := AppendProps(out, "-object", monitor, args, [Listed("-chardev", chardev)]);
    assert MonitorItems(m, i) == [Listed("-chardev", chardev)] + [Listed("-object", monitor)];
  }

  method AppendMonitors(s: Spec, args: seq<Arg>) returns (out: seq<Arg>)
    ensures out == args + RenderedAll(MonitorsItems(s.monitors, |s.monitors|))
  {
    hide RenderedAll, MonitorItems;
    RenderedNone();
    out := args;
    for i := 0 to |s.monitors|
      invariant out == args + RenderedAll(MonitorsItems(s.monitors, i))
    {
      PutAll(args, out, MonitorsItems(s.monitors, i), MonitorItems(s.monitors[i], i));
      out := AppendMonitor(s.monitors[i], i, out);
    }
  }

  method AppendFDSets(s: Spec, args: seq<Arg>) returns (out: seq<Arg>)
    ensures out == args + RenderedAll(FDSetsItems(s.fdSets, |s.fdSets|))
  {
    hide RenderedAll, Render, Itoa;
    RenderedNone();
    out := args;
    for i := 0 to |s.fdSets|
      invariant out == args + RenderedAll(FDSetsItems(s.fdSets, i))
    {
      var f := s.fdSets[i];
      ghost var done := FDSetsItems(s.fdSets, i);
      assert done + FDItems(f, 0) == done;
      for k := 0 to |f.fds|
        invariant out == args + RenderedAll(done + FDItems(f, k))
      {
        var fd := f.fds[k];
        var spec := [Plain("fd", Itoa(fd.num)), Plain("set", Itoa(f.id))];
        if fd.note != "" {
          spec := spec + [Escaped("opaque", fd.note)];
        }
        assert spec == FDProps(f.id, fd);
        out := AppendProps(out, "-add-fd", spec, args, done + FDItems(f, k));
        assert done + FDItems(f, k) + [Listed("-add-fd", spec)] == done + FDItems(f, k + 1);
      }
    }
  }

  method AppendIncoming(s: Spec, args: seq<Arg>) returns (out: seq<Arg>)
    ensures out == args + RenderedAll(IncomingItems(s))
  {
    out := args;
    if s.incoming != "" {
      out := Append(args, "-incoming", s.incoming, args, [], Verbatim("-incoming", s.incoming));
      assert IncomingItems(s) == [] + [Verbatim("-incoming", s.incoming)];
    }
  }

  method AppendHead(s: Spec) returns (args: seq<Arg>)
    ensures args == RenderedAll(HeadItems(s))
  {
    ghost var h := HeadItems(s);
    args := Append([], "-L", s.firmware, [], [], h[0]);
    ghost var done := [h[0]];
    args := Append(args, "-bios", Bios(s), [], done, h[1]);
    done := done + [h[1]];
    Put([], args, done, h[2]);
    args, done := args + [Str("-nodefaults")], done + [h[2]];
    Put([], args, done, h[3]);
    args, done := args + [Str("-nographic")], done + [h[3]];
    args := Append(args, "-sandbox", SANDBOX, [], done, h[4]);
    assert h == done + [h[4]];
  }

  method AppendShape(s: Spec, args: seq<Arg>) returns (out: seq<Arg>)
    ensures out == args + RenderedAll(ShapeItems(s))
  {
    var shape := ShapeOf(s);
    ghost var h := ShapeItems(s);
    out := Append(args, "-machine", shape.machine, args, [], h[0]);
    ghost var done := [h[0]];
    out := AppendProps(out, "-accel", AccelProps(s), args, done);
    done := done + [h[1]];
    out := Append(out, "-cpu", shape.cpu, args, done, h[2]);
    done := done + [h[2]];
    out := Append(out, "-smp", shape.smp, args, done, h[3]);
    done := done + [h[3]];
    out := Append(out, "-m", shape.memory, args, done, h[4]);
    assert h == done + [h[4]];
  }

  datatype Result = Built(args: seq<Arg>) | Error(why: Refusal)

  /** Spec.Args: a refused spec has no command line, an accepted one has exactly its items. */
  method Args(s: Spec) returns (r: Result)
    ensures r.Built? <==> Accepts(s)
    ensures r.Built? ==> r.args == RenderedAll(AllItems(s))
    ensures r.Error? ==> Justified(s, r.why)
  {
    var check := Validate(s);
    if check.Refused? {
      return Error(check.why);
    }
    var args := AppendHead(s);
    ghost var done := HeadItems(s);
    RenderedConcat(done, ShapeItems(s));
    args := AppendShape(s, args);
    done := done + ShapeItems(s);
    args := AppendChipset(args);
    RenderedConcat(done, CHIPSET);
    done := done + CHIPSET;
    args := AppendBoot(s, args);
    RenderedConcat(done, BootItems(s));
    done := done + BootItems(s);
    args := AppendDevices(s, args);
    RenderedConcat(done, DeviceItems(s));
    done := done + DeviceItems(s);
    args := AppendDisks(s, args);
    RenderedConcat(done, DisksItems(s.disks, |s.disks|));
    done := done + DisksItems(s.disks, |s.disks|);
    args := AppendNICs(s, args);
    RenderedConcat(done, NICsItems(s.nics, |s.nics|));
    done := done + NICsItems(s.nics, |s.nics|);
    args := AppendConsole(s, args);
    RenderedConcat(done, ConsoleItems(s));
    done := done + ConsoleItems(s);
    args := AppendMonitors(s, args);
    RenderedConcat(done, MonitorsItems(s.monitors, |s.monitors|));
    done := done + MonitorsItems(s.monitors, |s.monitors|);
    args := AppendFDSets(s, args);
    RenderedConcat(done, FDSetsItems(s.fdSets, |s.fdSets|));
    done := done + FDSetsItems(s.fdSets, |s.fdSets|);
    args := AppendIncoming(s, args);
    RenderedConcat(done, IncomingItems(s));
    return Built(args);
  }

  // ----- proofs about rendering in parts

  lemma {:induction false} BlocksConcat(a: seq<Node>, b: seq<Node>)
    ensures Blocks(a + b) == Blocks(a) + Blocks(b)
  {
    if a == [] {
      assert a + b == b;
    } else {
      assert (a + b)[1..] == a[1..] + b;
      BlocksConcat(a[1..], b);
    }
  }

  lemma BlocksRendered(below: seq<Node>, file: Node, format: Node)
    ensures RenderedAll(Blocks(below + [file, format])) ==
            RenderedAll(Blocks(below)) + [Str("-blockdev"), Json(file), Str("-blockdev"), Json(format)]
  {
    BlocksConcat(below, [file]);
    BlocksConcat(below + [file], [format]);
    assert below + [file] + [format] == below + [file, format];
    OneBlock(file);
    OneBlock(format);
    RenderedConcat(Blocks(below), [Block(file)]);
    RenderedConcat(Blocks(below) + [Block(file)], [Block(format)]);
    RenderedOne(Block(file));
    RenderedOne(Block(format));
  }

  lemma OneBlock(n: Node)
    ensures Blocks([n]) == [Block(n)]
  {
    assert [n][1..] == [];
  }
}
