/** The part of a command line that a checkpoint is bound to: the chipset's globals and every
    device but the disks', with what is one VM's own taken out. */
module Contract {
  import opened Text
  import opened QemuOptions
  import opened Argv
  import opened Machine
  import opened Args
  import Readback

  // ----- withoutTheVMs

  predicate IsVms(key: string) {
    key == "id" || key == "netdev" || key == "memdev" || key == "mac" || key == "guest-cid" || key == "vhostfd"
  }

  /** What is before the first '=', or everything when there is none. */
  function KeyOf(p: string): string { p[..IndexOf(p, '=')] }

  /** The properties that stay, in their order. */
  function Keep(parts: seq<string>): seq<string> {
    if parts == [] then [] else (if IsVms(KeyOf(parts[0])) then [] else [parts[0]]) + Keep(parts[1..])
  }

  function Stripped(dev: string): string {
    var parts := Split(dev, ',');
    Join([parts[0]] + Keep(parts[1..]), ",")
  }

  /** withoutTheVMs: the kept properties are moved down in the very slice the loop is still
      reading. No property is overwritten before it is read: what is left is the stable filter
      of the list as it was. */
  method WithoutTheVMs(dev: string) returns (r: string)
    ensures r == Stripped(dev)
  {
    hide Split, Keep, Join, IsVms, KeyOf;
    var was := Split(dev, ',');
    var parts := new string[|was|](i requires 0 <= i < |was| => was[i]);
    assert parts[..] == was;
    KeepNothing();
    assert was[1..1] == [];
    var kept := 1;
    var i := 1;
    while i < parts.Length
      invariant 1 <= kept <= i <= parts.Length == |was|
      invariant parts[i..] == was[i..]
      invariant parts[..kept] == [was[0]] + Keep(was[1..i])
    {
      var p := parts[i];
      assert p == parts[i..][0] == was[i];
      KeepAppend(was[1..i], p);
      assert was[1..i + 1] == was[1..i] + [p];
      if !IsVms(KeyOf(p)) {
        parts[kept] := p;
        kept := kept + 1;
        assert parts[..kept] == parts[..kept - 1] + [p];
      }
      i := i + 1;
    }
    assert was[1..i] == was[1..];
    r := Join(parts[..kept], ",");
  }

  lemma KeepNothing()
    ensures Keep([]) == []
  {
  }

  lemma {:induction false} KeepAppend(parts: seq<string>, p: string)
    ensures Keep(parts + [p]) == Keep(parts) + (if IsVms(KeyOf(p)) then [] else [p])
  {
    if parts == [] {
      assert [] + [p] == [p] && [p][1..] == [];
    } else {
      assert (parts + [p])[1..] == parts[1..] + [p];
      KeepAppend(parts[1..], p);
    }
  }

  // ----- Contract

  const SERIAL_LINE := "serial isa-serial"

  /** The loop of Contract over a flat list of arguments. */
  function Scan(args: seq<Arg>): seq<string> {
    if |args| < 2 then []
    else if args[0] == Str("-global") && args[1].Str? then ["global " + args[1].s] + Scan(args[2..])
    else if args[0] == Str("-device") && args[1].Str? then ["device " + Stripped(args[1].s)] + Scan(args[2..])
    else Scan(args[1..])
  }

  function ContractItems(s: Spec): seq<Item> {
    CHIPSET + DeviceItems(s) + NICsItems(s.nics, |s.nics|)
  }

  function HasSerial(s: Spec): bool { s.serial != "" || s.serialFDSet != 0 }

  function SerialLines(s: Spec): seq<string> { if HasSerial(s) then [SERIAL_LINE] else [] }

  method ScanLoop(args: seq<Arg>) returns (out: seq<string>)
    ensures out == Scan(args)
  {
    hide Stripped, Scan;
    out := [];
    var i := 0;
    assert args[0..] == args;
    while i + 1 < |args|
      invariant 0 <= i <= |args|
      invariant out + Scan(args[i..]) == Scan(args)
    {
      ScanAt(args, i);
      if args[i] == Str("-global") && args[i + 1].Str? {
        out := out + ["global " + args[i + 1].s];
        i := i + 1;
      } else if args[i] == Str("-device") && args[i + 1].Str? {
        var kept := WithoutTheVMs(args[i + 1].s);
        out := out + ["device " + kept];
        i := i + 1;
      }
      i := i + 1;
    }
    ScanEnds(args[i..]);
  }

  lemma ScanEnds(args: seq<Arg>)
    requires |args| < 2
    ensures Scan(args) == []
  {
  }

  lemma ScanAt(args: seq<Arg>, i: nat)
    requires i + 1 < |args|
    ensures Scan(args[i..]) ==
            if args[i] == Str("-global") && args[i + 1].Str? then ["global " + args[i + 1].s] + Scan(args[i + 2..])
            else if args[i] == Str("-device") && args[i + 1].Str? then
              ["device " + Stripped(args[i + 1].s)] + Scan(args[i + 2..])
            else Scan(args[i + 1..])
  {
    hide Stripped;
    var rest := args[i..];
    assert rest[0] == args[i] && rest[1] == args[i + 1] && rest[1..] == args[i + 1..] && rest[2..] == args[i + 2..];
  }

  method Contract(s: Spec) returns (out: seq<string>)
    ensures out == Scan(RenderedAll(ContractItems(s))) + SerialLines(s)
  {
    hide DeviceItems, NICsItems, Scan, RenderedAll;
    var args := AppendChipset([]);
    assert args == RenderedAll(CHIPSET);
    RenderedConcat(CHIPSET, DeviceItems(s));
    args := AppendDevices(s, args);
    RenderedConcat(CHIPSET + DeviceItems(s), NICsItems(s.nics, |s.nics|));
    args := AppendNICs(s, args);
    out := ScanLoop(args);
    if s.serial != "" || s.serialFDSet != 0 {
      out := out + [SERIAL_LINE];
    }
  }

  // ----- what the contract says of QEMU's reading

  function Printed(o: Opt): string {
    match o
    case Flag(name) => name
    case Set(key, value) => key + "=" + value
  }

  function PrintedAll(os: seq<Opt>): (r: seq<string>)
    ensures |r| == |os| && forall i | 0 <= i < |os| :: r[i] == Printed(os[i])
  {
    if os == [] then [] else [Printed(os[0])] + PrintedAll(os[1..])
  }

  predicate OptIsVms(o: Opt) { IsVms(match o case Flag(name) => name case Set(key, _) => key) }

  function KeepOpts(os: seq<Opt>): seq<Opt> {
    if os == [] then [] else (if OptIsVms(os[0]) then [] else [os[0]]) + KeepOpts(os[1..])
  }

  /** A device's line: its driver, and its properties without the VM's own. */
  function DeviceLine(os: seq<Opt>): string
    requires |os| > 0
  {
    "device " + Join(PrintedAll([os[0]] + KeepOpts(os[1..])), ",")
  }

  /** What one option of a command line puts in the contract: a global and a device that is not
      a disk's each put one line, everything else none. */
  function LineOf(r: Reading): seq<string> {
    match r
    case ReadText(flag, text) => if flag == "-global" then ["global " + text] else []
    case ReadOpts(flag, opts) =>
      if flag == "-device" && |opts| > 0 && opts[0] != Flag("virtio-blk-pci") then [DeviceLine(opts)] else []
    case _ => []
  }

  function Lines(rs: seq<Reading>): seq<string> {
    if rs == [] then [] else LineOf(rs[0]) + Lines(rs[1..])
  }

  function LinesOf(items: seq<Item>): seq<string> { Lines(MeantByAll(items)) }

  // ----- proofs

  lemma {:induction false} LinesRead(items: seq<Item>)
    ensures Lines(ReadAsAll(items)) == LinesOf(items)
  {
    hide LineOf, ReadAs, MeantBy;
    if items != [] {
      LinesRead(items[1..]);
      OneLineRead(items[0]);
      assert ReadAsAll(items)[1..] == ReadAsAll(items[1..]) && MeantByAll(items)[1..] == MeantByAll(items[1..]);
    }
  }

  lemma OneLineRead(i: Item)
    ensures LineOf(ReadAs(i)) == LineOf(MeantBy(i))
  {
    hide DeviceLine, MeantAll;
  }

  /** Properties the contract reads: words, and keys with comma-free values. */
  predicate Unescaped(ps: seq<Prop>) {
    |ps| > 0 && AllWellWritten(ps) && forall i | 0 <= i < |ps| :: !ps[i].Escaped?
  }

  lemma WrittenIsClean(p: Prop)
    requires WellWritten(p) && !p.Escaped?
    ensures ',' !in Written(p)
    ensures Printed(Meant(p)) == Written(p)
    ensures IsVms(KeyOf(Written(p))) == OptIsVms(Meant(p))
  {
    match p {
      case Word(t) =>
        IndexOfAbsent(t, '=');
        assert t[..|t|] == t;
      case Plain(k, v) =>
        IndexOfFirst(k, '=', v);
        assert k + "=" + v == k + ['='] + v;
        assert (k + "=" + v)[..|k|] == k;
    }
  }

  lemma {:induction false} KeepWritten(ps: seq<Prop>)
    requires AllWellWritten(ps) && forall i | 0 <= i < |ps| :: !ps[i].Escaped?
    ensures Keep(WrittenAll(ps)) == PrintedAll(KeepOpts(MeantAll(ps)))
  {
    hide IsVms, KeyOf, OptIsVms, Printed, Written, Meant;
    if ps != [] {
      WrittenIsClean(ps[0]);
      KeepWritten(ps[1..]);
      assert WrittenAll(ps)[1..] == WrittenAll(ps[1..]) && MeantAll(ps)[1..] == MeantAll(ps[1..]);
      PrintedConcat(if OptIsVms(Meant(ps[0])) then [] else [Meant(ps[0])], KeepOpts(MeantAll(ps[1..])));
    }
  }

  lemma PrintedConcat(a: seq<Opt>, b: seq<Opt>)
    ensures PrintedAll(a + b) == PrintedAll(a) + PrintedAll(b)
  {
  }

  lemma StrippedDevice(ps: seq<Prop>)
    requires Unescaped(ps)
    ensures "device " + Stripped(Render(ps)) == DeviceLine(MeantAll(ps))
  {
    hide Written, Meant, Printed;
    forall i | 0 <= i < |ps| ensures ',' !in WrittenAll(ps)[i] {
      WrittenIsClean(ps[i]);
    }
    SplitJoin(WrittenAll(ps), ',');
    WrittenIsClean(ps[0]);
    KeepWritten(ps[1..]);
    assert WrittenAll(ps)[1..] == WrittenAll(ps[1..]) && MeantAll(ps)[1..] == MeantAll(ps[1..]);
    var kept := KeepOpts(MeantAll(ps)[1..]);
    PrintedConcat([MeantAll(ps)[0]], kept);
    assert PrintedAll([MeantAll(ps)[0]]) == [WrittenAll(ps)[0]];
  }

  /** An item the loop of Contract reads as one: no value of it is taken for a flag. */
  predicate Scannable(i: Item) {
    match i
    case Bare(flag) => flag != "-global" && flag != "-device"
    case Verbatim(flag, text) => flag == "-global"
    case Listed(flag, ps) =>
      if flag == "-device" then Unescaped(ps) && ps[0] != Word("virtio-blk-pci")
      else flag != "-global" && |ps| > 0 && ps[0].Word? && |ps[0].text| > 0 && ps[0].text[0] != '-'
    case _ => false
  }

  lemma RenderStartsWithWord(ps: seq<Prop>)
    requires |ps| > 0 && ps[0].Word? && |ps[0].text| > 0
    ensures |Render(ps)| > 0 && Render(ps)[0] == ps[0].text[0]
  {
  }

  lemma ScanItem(i: Item, more: seq<Arg>)
    requires Scannable(i)
    ensures Scan(Rendered(i) + more) == LineOf(MeantBy(i)) + Scan(more)
  {
    hide Render, Stripped, DeviceLine, Unescaped;
    var args := Rendered(i) + more;
    match i {
      case Bare(flag) =>
        assert args[1..] == more;
      case Verbatim(flag, text) =>
        assert args[2..] == more;
      case Listed(flag, ps) =>
        assert args[1..][1..] == more && args[2..] == more;
        if flag == "-device" {
          StrippedDevice(ps);
          DeviceIsNoDisk(ps);
        } else {
          RenderStartsWithWord(ps);
          assert args[1] == Str(Render(ps)) && Render(ps)[0] != '-';
          assert args[1] != Str("-global") && args[1] != Str("-device");
          assert args[1..][0] == args[1];
        }
    }
  }

  lemma DeviceIsNoDisk(ps: seq<Prop>)
    requires Unescaped(ps) && ps[0] != Word("virtio-blk-pci")
    ensures |MeantAll(ps)| > 0 && MeantAll(ps)[0] != Flag("virtio-blk-pci")
  {
  }

  lemma {:induction false} ScanItems(items: seq<Item>)
    requires forall i | 0 <= i < |items| :: Scannable(items[i])
    ensures Scan(RenderedAll(items)) == LinesOf(items)
  {
    hide Scannable, LineOf, Rendered;
    if items != [] {
      ScanItem(items[0], RenderedAll(items[1..]));
      ScanItems(items[1..]);
    }
  }

  lemma {:induction false} LinesConcat(a: seq<Item>, b: seq<Item>)
    ensures LinesOf(a + b) == LinesOf(a) + LinesOf(b)
  {
    hide LineOf, MeantBy;
    if a == [] {
      assert a + b == b;
    } else {
      assert (a + b)[1..] == a[1..] + b;
      LinesConcat(a[1..], b);
    }
  }

  lemma LinesOne(i: Item)
    ensures LinesOf([i]) == LineOf(MeantBy(i))
  {
    hide LineOf, MeantBy;
    assert MeantByAll([i])[1..] == [];
    assert Lines(MeantByAll([i])[1..]) == [];
  }

  lemma {:induction false} LinesNone(items: seq<Item>)
    requires forall i | 0 <= i < |items| :: LineOf(MeantBy(items[i])) == []
    ensures LinesOf(items) == []
  {
    hide LineOf, MeantBy;
    if items != [] {
      LinesNone(items[1..]);
    }
  }

  // ----- every item of the contract is scannable

  lemma ChipsetScannable()
    ensures forall i | 0 <= i < |CHIPSET| :: Scannable(CHIPSET[i])
  {
  }

  lemma DevicesScannable(s: Spec)
    ensures forall i | 0 <= i < |DeviceItems(s)| :: Scannable(DeviceItems(s)[i])
  {
    FixedScannable();
    OptionalScannable(s);
    hide FixedDeviceItems, VsockItems, GrowthItems, HotplugItems, Scannable;
    var a, b, c, d := FixedDeviceItems(), VsockItems(s), GrowthItems(s), HotplugItems(s);
    forall i | 0 <= i < |a + b + c + d| ensures Scannable((a + b + c + d)[i]) {
      var x := (a + b + c + d)[i];
      assert x in a || x in b || x in c || x in d;
    }
  }

  lemma FixedScannable()
    ensures forall x | x in FixedDeviceItems() :: Scannable(x)
  {
    hide Hex;
    Readback.FixedWell();
    Readback.BalloonWell();
    assert Unescaped(VMGENID) && Unescaped(RngProps()) && Unescaped(BalloonProps());
  }

  lemma OptionalScannable(s: Spec)
    ensures forall x | x in VsockItems(s) :: Scannable(x)
    ensures forall x | x in GrowthItems(s) :: Scannable(x)
    ensures forall x | x in HotplugItems(s) :: Scannable(x)
  {
    hide Hex;
    Readback.VsockWell(s);
    Readback.VirtioMemWell();
    Readback.FixedWell();
    assert Unescaped(VsockProps(s)) && Unescaped(VirtioMemProps()) && Unescaped(ScsiProps());
  }

  lemma NICScannable(n: NIC, i: nat)
    requires NICOk(n)
    ensures Scannable(Listed("-netdev", NetdevProps(n, i))) && Scannable(Listed("-device", NetProps(n, i)))
  {
    hide Hex, NetName, Itoa;
    Readback.NetWell(n, i);
    assert Unescaped(NetProps(n, i));
  }

  lemma {:induction false} NICsScannable(ns: seq<NIC>, n: nat)
    requires n <= |ns| && forall i | 0 <= i < n :: NICOk(ns[i])
    ensures forall i | 0 <= i < |NICsItems(ns, n)| :: Scannable(NICsItems(ns, n)[i])
  {
    hide Scannable, NetProps, NetdevProps;
    if n > 0 {
      NICsScannable(ns, n - 1);
      NICScannable(ns[n - 1], n - 1);
    }
  }

  lemma ContractScannable(s: Spec)
    requires Accepts(s)
    ensures forall i | 0 <= i < |ContractItems(s)| :: Scannable(ContractItems(s)[i])
  {
    hide Scannable, DeviceItems, NICsItems;
    ChipsetScannable();
    DevicesScannable(s);
    NICsScannable(s.nics, |s.nics|);
  }

  /** The contract is the lines of its own items. */
  lemma ContractIsItsLines(s: Spec)
    requires Accepts(s)
    ensures Scan(RenderedAll(ContractItems(s))) == LinesOf(ContractItems(s))
    ensures LinesOf(ContractItems(s)) == LinesOf(CHIPSET) + LinesOf(DeviceItems(s)) +
              LinesOf(NICsItems(s.nics, |s.nics|))
  {
    hide Scannable, DeviceItems, NICsItems, Scan, LinesOf, RenderedAll;
    ContractScannable(s);
    ScanItems(ContractItems(s));
    LinesConcat(CHIPSET, DeviceItems(s));
    LinesConcat(CHIPSET + DeviceItems(s), NICsItems(s.nics, |s.nics|));
  }

  // ----- and of the whole command line

  lemma HeadLines(s: Spec)
    ensures LinesOf(HeadItems(s)) == []
  {
    LinesNone(HeadItems(s));
  }

  lemma ShapeLines(s: Spec)
    ensures LinesOf(ShapeItems(s)) == []
  {
    hide AccelProps, ShapeOf, DeviceLine;
    LinesNone(ShapeItems(s));
  }

  lemma BootLines(s: Spec)
    ensures LinesOf(BootItems(s)) == [] && LinesOf(IncomingItems(s)) == [] && LinesOf(ConsoleItems(s)) == []
  {
    hide LinesOf, LineOf, MeantBy, ConsoleProps;
    LinesNone([]);
    BootHasNoLine(s.kernel);
    BootHasNoLine(s.initrd);
    BootHasNoLine(Cmdline.Line(s.cmdline));
    BootHasNoLine(s.incoming);
    LinesNone(BootItems(s));
    LinesNone(IncomingItems(s));
    BootHasNoLine(if s.serialFDSet != 0 then "chardev:serial0" else if s.serial != "" then s.serial else "none");
    OtherHasNoLine("-chardev", ConsoleProps(s));
    LinesNone(ConsoleItems(s));
  }

  lemma BootHasNoLine(text: string)
    ensures LineOf(MeantBy(Verbatim("-kernel", text))) == []
    ensures LineOf(MeantBy(Verbatim("-initrd", text))) == []
    ensures LineOf(MeantBy(Verbatim("-append", text))) == []
    ensures LineOf(MeantBy(Verbatim("-incoming", text))) == []
    ensures LineOf(MeantBy(Verbatim("-serial", text))) == []
  {
  }

  lemma OtherHasNoLine(flag: string, ps: seq<Prop>)
    requires flag != "-device"
    ensures LineOf(MeantBy(Listed(flag, ps))) == []
  {
    hide DeviceLine, MeantAll;
  }

  lemma {:induction false} BlocksLines(nodes: seq<Node>)
    ensures LinesOf(Blocks(nodes)) == []
  {
    if nodes != [] {
      BlocksLines(nodes[1..]);
      assert Blocks(nodes) == [Block(nodes[0])] + Blocks(nodes[1..]);
      LinesConcat([Block(nodes[0])], Blocks(nodes[1..]));
      LinesOne(Block(nodes[0]));
    }
  }

  lemma DiskLine(d: Disk, i: nat)
    ensures LineOf(MeantBy(Listed("-device", BlkProps(d, i)))) == []
    ensures LineOf(MeantBy(Listed("-drive", DriveProps(d, i)))) == []
  {
    hide NodeName, Slot, DeviceLine;
    assert BlkProps(d, i)[0] == Word("virtio-blk-pci");
    assert MeantAll(BlkProps(d, i))[0] == Flag("virtio-blk-pci");
  }

  lemma DiskLines(d: Disk, i: nat)
    ensures LinesOf(DiskItems(d, i)) == []
  {
    hide BlkProps, DriveProps, LineOf, LinesOf, ChainNodes, MeantBy;
    var images := if d.chain != [] then Blocks(ChainNodes(d, i, 0)) else [Listed("-drive", DriveProps(d, i))];
    DiskLine(d, i);
    LinesConcat(images, [Listed("-device", BlkProps(d, i))]);
    LinesOne(Listed("-device", BlkProps(d, i)));
    LinesOne(Listed("-drive", DriveProps(d, i)));
    BlocksLines(ChainNodes(d, i, 0));
  }

  lemma {:induction false} DisksLines(ds: seq<Disk>, n: nat)
    requires n <= |ds|
    ensures LinesOf(DisksItems(ds, n)) == []
  {
    hide DiskItems;
    if n > 0 {
      DisksLines(ds, n - 1);
      DiskLines(ds[n - 1], n - 1);
      LinesConcat(DisksItems(ds, n - 1), DiskItems(ds[n - 1], n - 1));
    }
  }

  lemma {:induction false} MonitorsLines(ms: seq<Monitor>, n: nat)
    requires n <= |ms|
    ensures LinesOf(MonitorsItems(ms, n)) == []
  {
    hide LinesOf, MonitorItems;
    if n == 0 {
      LinesNone([]);
    } else {
      MonitorsLines(ms, n - 1);
      LinesConcat(MonitorsItems(ms, n - 1), MonitorItems(ms[n - 1], n - 1));
      MonitorLines(ms[n - 1], n - 1);
    }
  }

  lemma MonitorLines(m: Monitor, i: nat)
    ensures LinesOf(MonitorItems(m, i)) == []
  {
    hide LinesOf, QmpChardevProps, QmpMonitorProps, LineOf, MeantBy;
    OtherHasNoLine("-chardev", QmpChardevProps(m, i));
    OtherHasNoLine("-object", QmpMonitorProps(i));
    SocketHasNoLine(m.socket);
    LinesNone(MonitorItems(m, i));
  }

  lemma SocketHasNoLine(path: string)
    ensures LineOf(MeantBy(Socket(path))) == []
  {
  }

  lemma {:induction false} FDLines(f: FDSet, n: nat)
    requires n <= |f.fds|
    ensures LinesOf(FDItems(f, n)) == []
  {
    hide FDProps, DeviceLine;
    if n > 0 {
      FDLines(f, n - 1);
      LinesConcat(FDItems(f, n - 1), [Listed("-add-fd", FDProps(f.id, f.fds[n - 1]))]);
      LinesOne(Listed("-add-fd", FDProps(f.id, f.fds[n - 1])));
    }
  }

  lemma {:induction false} FDSetsLines(fs: seq<FDSet>, n: nat)
    requires n <= |fs|
    ensures LinesOf(FDSetsItems(fs, n)) == []
  {
    if n > 0 {
      FDSetsLines(fs, n - 1);
      FDLines(fs[n - 1], |fs[n - 1].fds|);
      LinesConcat(FDSetsItems(fs, n - 1), FDItems(fs[n - 1], |fs[n - 1].fds|));
    }
  }

  lemma FrontLines(s: Spec)
    ensures LinesOf(HeadItems(s) + ShapeItems(s) + CHIPSET + BootItems(s)) == LinesOf(CHIPSET)
  {
    hide *;
    HeadLines(s);
    ShapeLines(s);
    BootLines(s);
    LinesConcat(HeadItems(s), ShapeItems(s));
    LinesConcat(HeadItems(s) + ShapeItems(s), CHIPSET);
    LinesConcat(HeadItems(s) + ShapeItems(s) + CHIPSET, BootItems(s));
  }

  lemma AllLines(s: Spec)
    ensures LinesOf(AllItems(s)) ==
            LinesOf(CHIPSET) + LinesOf(DeviceItems(s)) + LinesOf(NICsItems(s.nics, |s.nics|))
  {
    hide HeadItems, ShapeItems, BootItems, DeviceItems, DisksItems, NICsItems, ConsoleItems, MonitorsItems,
         FDSetsItems, IncomingItems, LinesOf;
    FrontLines(s);
    BootLines(s);
    DisksLines(s.disks, |s.disks|);
    MonitorsLines(s.monitors, |s.monitors|);
    FDSetsLines(s.fdSets, |s.fdSets|);
    var items := HeadItems(s) + ShapeItems(s) + CHIPSET + BootItems(s);
    LinesConcat(items, DeviceItems(s));
    items := items + DeviceItems(s);
    LinesConcat(items, DisksItems(s.disks, |s.disks|));
    items := items + DisksItems(s.disks, |s.disks|);
    LinesConcat(items, NICsItems(s.nics, |s.nics|));
    items := items + NICsItems(s.nics, |s.nics|);
    LinesConcat(items, ConsoleItems(s));
    items := items + ConsoleItems(s);
    LinesConcat(items, MonitorsItems(s.monitors, |s.monitors|));
    items := items + MonitorsItems(s.monitors, |s.monitors|);
    LinesConcat(items, FDSetsItems(s.fdSets, |s.fdSets|));
    items := items + FDSetsItems(s.fdSets, |s.fdSets|);
    LinesConcat(items, IncomingItems(s));
  }

  /** The contract never drifts from the command line: it is exactly the globals and devices
      QEMU reads there, in order, without the disks' devices and without the properties that
      are one VM's; Contract adds to them only whether there is a serial port. */
  lemma ContractIsTheCommandLine(s: Spec)
    requires Accepts(s)
    ensures var read := ReadArgv(RenderedAll(AllItems(s)));
            read.Some? && Scan(RenderedAll(ContractItems(s))) == Lines(read.value)
  {
    hide AllItems, ContractItems, Scan, RenderedAll, ReadArgv, Lines, LinesOf, DeviceItems, NICsItems;
    Readback.CommandLineIsReadBack(s);
    LinesRead(AllItems(s));
    ContractIsItsLines(s);
    AllLines(s);
  }
}
