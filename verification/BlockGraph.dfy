/** The -blockdev nodes of a machine, opened as QEMU opens them: one at a time, in order, each
    naming only nodes already there. What is behind each disk is then what its chain said. */
module BlockGraph {
  import opened Text
  import opened Argv
  import opened Machine
  import opened Args
  import opened Closure
  import Readback

  /** An opened node, with what its names stood for when it was opened. */
  datatype Opened =
    | OpenFile(node: Node)
    | OpenFormat(node: Node, file: Opened, under: Under)

  /** What is under a format node: nothing was said and the image's header is followed, JSON
      null and nothing is, or another format node. */
  datatype Under = HeaderDecides | NothingUnder | On(image: Opened)

  type Graph = map<string, Opened>

  function OpenOne(n: Node, g: Graph): Option<Opened> {
    if n.FileNode? then Some(OpenFile(n))
    else if n.file !in g || !g[n.file].OpenFile? then None
    else
      match n.backing
      case Absent => Some(OpenFormat(n, g[n.file], HeaderDecides))
      case Null => Some(OpenFormat(n, g[n.file], NothingUnder))
      case Named(b) =>
        if b !in g || !g[b].OpenFormat? then None else Some(OpenFormat(n, g[n.file], On(g[b])))
  }

  function Open(nodes: seq<Node>, g: Graph): Option<Graph> {
    if nodes == [] then Some(g)
    else if nodes[0].nodeName in g then None
    else
      match OpenOne(nodes[0], g)
      case None => None
      case Some(o) => Open(nodes[1..], g[nodes[0].nodeName := o])
  }

  /** One image of a disk, as QEMU has it: its file and its format, whether each of the two nodes may
      only be read, how the file is locked and cached, and what else both were opened with. */
  datatype Layer = Layer(path: string, format: string, fileReadOnly: bool, readOnly: bool, locking: string,
                         cache: Option<bool>, aio: string, dropCache: bool, fileDiscard: string, discard: string)

  /** The images of a disk from the top down. */
  function Walk(o: Opened): seq<Layer> {
    if o.OpenFormat? && o.node.FormatNode? && o.file.OpenFile? && o.file.node.FileNode? then
      (var f := o.file.node;
       [Layer(f.filename, o.node.driver, f.readOnly, o.node.readOnly, f.locking, f.cache, f.aio, f.dropCache, f.discard,
              o.node.discard)]) +
      (if o.under.On? then Walk(o.under.image) else [])
    else []
  }

  function Bottom(o: Opened): Under {
    if o.OpenFormat? then if o.under.On? then Bottom(o.under.image) else o.under else HeaderDecides
  }

  /** The nodes QEMU is given, in order. */
  function NodesOf(items: seq<Item>): seq<Node> {
    if items == [] then [] else (if items[0].Block? then [items[0].node] else []) + NodesOf(items[1..])
  }

  function NodesRead(rs: seq<Reading>): seq<Node> {
    if rs == [] then [] else (if rs[0].ReadBlock? then [rs[0].node] else []) + NodesRead(rs[1..])
  }

  // ----- what a chain comes to

  /** The opened image at depth j of disk i. */
  function Image(d: Disk, i: nat, j: nat): Opened
    requires j < |d.chain|
    decreases |d.chain| - j
  {
    OpenFormat(FormatOf(d, i, j), OpenFile(FileOf(d, i, j)),
               if j < |d.chain| - 1 then On(Image(d, i, j + 1))
               else if d.chain[j].format != "raw" then NothingUnder else HeaderDecides)
  }

  predicate Extends(g: Graph, g0: Graph, d: Disk, i: nat, j: nat) {
    && (forall x | x in g0 :: x in g && g[x] == g0[x])
    && (forall x | x in g :: x in g0 || IsOf(x, i, j, |d.chain|))
    && (forall k | j <= k < |d.chain| :: NodeName(i, k) in g && g[NodeName(i, k)] == Image(d, i, k))
  }

  predicate Free(g: Graph, i: nat, from: nat, to: nat) {
    forall k | from <= k < to :: NodeName(i, k) !in g && FileName(i, k) !in g
  }

  lemma {:induction false} OpenConcat(a: seq<Node>, b: seq<Node>, g: Graph)
    ensures Open(a + b, g) == match Open(a, g) case None => None case Some(g') => Open(b, g')
  {
    if a == [] {
      assert a + b == b;
    } else {
      assert (a + b)[1..] == a[1..] + b;
      if a[0].nodeName !in g && OpenOne(a[0], g).Some? {
        OpenConcat(a[1..], b, g[a[0].nodeName := OpenOne(a[0], g).value]);
      }
    }
  }

  /** An image's two nodes open on top of the images under it. */
  lemma OpenImage(d: Disk, i: nat, j: nat, g0: Graph, g: Graph)
    requires j < |d.chain| && Extends(g, g0, d, i, j + 1) && Free(g0, i, 0, |d.chain|)
    ensures var g' := g[FileName(i, j) := OpenFile(FileOf(d, i, j))][NodeName(i, j) := Image(d, i, j)];
            Open([FileOf(d, i, j), FormatOf(d, i, j)], g) == Some(g') && Extends(g', g0, d, i, j)
  {
    hide NodeName, FileName, FDSetPath, Extends, Free, Open;
    var g1 := g[FileName(i, j) := OpenFile(FileOf(d, i, j))];
    FreshAbove(d, i, j, g0, g);
    NodeIsNotFile(i, j, i, j);
    FormatOpens(d, i, j, g0, g);
    OpenTwo(FileOf(d, i, j), FormatOf(d, i, j), g, OpenFile(FileOf(d, i, j)), Image(d, i, j));
    ExtendsImage(d, i, j, g0, g);
  }

  lemma OpenTwo(a: Node, b: Node, g: Graph, oa: Opened, ob: Opened)
    requires a.nodeName !in g && b.nodeName !in g && a.nodeName != b.nodeName
    requires OpenOne(a, g) == Some(oa) && OpenOne(b, g[a.nodeName := oa]) == Some(ob)
    ensures Open([a, b], g) == Some(g[a.nodeName := oa][b.nodeName := ob])
  {
    hide OpenOne;
    assert [a, b][1..] == [b] && [b][1..] == [];
    var g2 := g[a.nodeName := oa][b.nodeName := ob];
    assert Open([], g2) == Some(g2);
    assert Open([b], g[a.nodeName := oa]) == Some(g2);
  }

  lemma FormatOpens(d: Disk, i: nat, j: nat, g0: Graph, g: Graph)
    requires j < |d.chain| && Extends(g, g0, d, i, j + 1)
    ensures OpenOne(FormatOf(d, i, j), g[FileName(i, j) := OpenFile(FileOf(d, i, j))]) == Some(Image(d, i, j))
  {
    hide NodeName, FileName, FDSetPath, IsOf;
    if j + 1 < |d.chain| {
      assert g[NodeName(i, j + 1)] == Image(d, i, j + 1);
      NodeIsNotFile(i, j + 1, i, j);
    }
  }

  lemma ExtendsImage(d: Disk, i: nat, j: nat, g0: Graph, g: Graph)
    requires j < |d.chain| && Extends(g, g0, d, i, j + 1)
    requires NodeName(i, j) !in g && FileName(i, j) !in g
    ensures Extends(g[FileName(i, j) := OpenFile(FileOf(d, i, j))][NodeName(i, j) := Image(d, i, j)], g0, d, i, j)
  {
    hide NodeName, FileName, FDSetPath, FileOf, Image;
    var g' := g[FileName(i, j) := OpenFile(FileOf(d, i, j))][NodeName(i, j) := Image(d, i, j)];
    forall k | j < k < |d.chain| ensures NodeName(i, k) in g' && g'[NodeName(i, k)] == Image(d, i, k) {
      NodeIsNotFile(i, k, i, j);
      NodeNamesDiffer(i, k, i, j);
    }
    forall x | x in g' ensures x in g0 || IsOf(x, i, j, |d.chain|) {
      if x in g && x !in g0 {
        assert IsOf(x, i, j + 1, |d.chain|);
        var k :| j + 1 <= k < |d.chain| && (x == NodeName(i, k) || x == FileName(i, k));
      }
    }
  }

  /** The names at depth j are free before its nodes are opened. */
  lemma FreshAbove(d: Disk, i: nat, j: nat, g0: Graph, g: Graph)
    requires j < |d.chain| && Extends(g, g0, d, i, j + 1) && Free(g0, i, 0, |d.chain|)
    ensures NodeName(i, j) !in g && FileName(i, j) !in g
  {
    hide NodeName, FileName;
    if NodeName(i, j) in g || FileName(i, j) in g {
      var x := if NodeName(i, j) in g then NodeName(i, j) else FileName(i, j);
      var k :| j + 1 <= k < |d.chain| && (x == NodeName(i, k) || x == FileName(i, k));
      NodeNamesDiffer(i, j, i, k);
      NodeIsNotFile(i, j, i, k);
      NodeIsNotFile(i, k, i, j);
    }
  }

  lemma {:induction false} OpenChain(d: Disk, i: nat, j: nat, g0: Graph)
    requires j <= |d.chain| && Free(g0, i, 0, |d.chain|)
    ensures Open(ChainNodes(d, i, j), g0).Some?
    ensures Extends(Open(ChainNodes(d, i, j), g0).value, g0, d, i, j)
    decreases |d.chain| - j
  {
    hide NodeName, FileName, FDSetPath, FileOf, FormatOf;
    if j < |d.chain| {
      OpenChain(d, i, j + 1, g0);
      OpenConcat(ChainNodes(d, i, j + 1), [FileOf(d, i, j), FormatOf(d, i, j)], g0);
      OpenImage(d, i, j, g0, Open(ChainNodes(d, i, j + 1), g0).value);
    }
  }

  /** The nodes of the first n disks. */
  function DiskNodes(ds: seq<Disk>, n: nat): seq<Node>
    requires n <= |ds|
  {
    if n == 0 then [] else DiskNodes(ds, n - 1) + ChainNodes(ds[n - 1], n - 1, 0)
  }

  ghost predicate Holds(g: Graph, ds: seq<Disk>, n: nat)
    requires n <= |ds|
  {
    && (forall x | x in g :: exists i, to: nat | 0 <= i < n :: IsOf(x, i, 0, to))
    && (forall i | 0 <= i < n && ds[i].chain != [] ::
          NodeName(i, 0) in g && g[NodeName(i, 0)] == Image(ds[i], i, 0))
  }

  lemma HoldsFree(g: Graph, ds: seq<Disk>, n: nat, to: nat)
    requires n <= |ds| && Holds(g, ds, n)
    ensures Free(g, n, 0, to)
  {
    hide NodeName, FileName, Image;
    forall k | 0 <= k < to ensures NodeName(n, k) !in g && FileName(n, k) !in g {
      if NodeName(n, k) in g || FileName(n, k) in g {
        var x := if NodeName(n, k) in g then NodeName(n, k) else FileName(n, k);
        var i, m: nat :| 0 <= i < n && IsOf(x, i, 0, m);
        assert IsOf(x, n, 0, k + 1);
        OneDisk(x, i, m, n, k + 1);
      }
    }
  }

  lemma HoldsNext(g: Graph, g': Graph, ds: seq<Disk>, n: nat)
    requires n < |ds| && Holds(g, ds, n) && Extends(g', g, ds[n], n, 0)
    ensures Holds(g', ds, n + 1)
  {
    hide NodeName, FileName, Image;
    forall x | x in g' ensures exists i, to: nat | 0 <= i < n + 1 :: IsOf(x, i, 0, to) {
      if x in g {
        var i, m: nat :| 0 <= i < n && IsOf(x, i, 0, m);
      } else {
        assert IsOf(x, n, 0, |ds[n].chain|);
      }
    }
  }

  lemma {:induction false} OpenDisks(ds: seq<Disk>, n: nat)
    requires n <= |ds|
    ensures Open(DiskNodes(ds, n), map[]).Some? && Holds(Open(DiskNodes(ds, n), map[]).value, ds, n)
  {
    hide Extends, Holds, Free, ChainNodes, Open, Image;
    assert Open([], map[]) == Some(map[]) by { OpenNothing(); }
    if n == 0 {
      HoldsNothing(ds);
    } else {
      var d := ds[n - 1];
      OpenDisks(ds, n - 1);
      var g := Open(DiskNodes(ds, n - 1), map[]).value;
      OpenConcat(DiskNodes(ds, n - 1), ChainNodes(d, n - 1, 0), map[]);
      HoldsFree(g, ds, n - 1, |d.chain|);
      OpenChain(d, n - 1, 0, g);
      HoldsNext(g, Open(ChainNodes(d, n - 1, 0), g).value, ds, n - 1);
    }
  }

  lemma OpenNothing()
    ensures Open([], map[]) == Some(map[])
  {
  }

  lemma HoldsNothing(ds: seq<Disk>)
    ensures Holds(map[], ds, 0)
  {
  }

  // ----- the nodes of the command line

  lemma {:induction false} NodesConcat(a: seq<Item>, b: seq<Item>)
    ensures NodesOf(a + b) == NodesOf(a) + NodesOf(b)
  {
    if a == [] {
      assert a + b == b && NodesOf(a) == [];
    } else {
      NodesCons(a);
      NodesCons(a + b);
      hide NodesOf;
      assert (a + b)[1..] == a[1..] + b;
      NodesConcat(a[1..], b);
      var own := if a[0].Block? then [a[0].node] else [];
      assert own + (NodesOf(a[1..]) + NodesOf(b)) == own + NodesOf(a[1..]) + NodesOf(b);
    }
  }

  lemma NodesCons(items: seq<Item>)
    requires items != []
    ensures NodesOf(items) == (if items[0].Block? then [items[0].node] else []) + NodesOf(items[1..])
  {
  }

  predicate NoBlocks(items: seq<Item>) {
    forall i | 0 <= i < |items| :: !items[i].Block?
  }

  lemma {:induction false} NodesOfNone(items: seq<Item>)
    requires NoBlocks(items)
    ensures NodesOf(items) == []
  {
    if items != [] {
      NodesOfNone(items[1..]);
    }
  }

  lemma {:induction false} NodesOfBlocks(nodes: seq<Node>)
    ensures NodesOf(Blocks(nodes)) == nodes
  {
    if nodes != [] {
      assert Blocks(nodes)[1..] == Blocks(nodes[1..]);
      NodesOfBlocks(nodes[1..]);
    }
  }

  lemma NodesOfDisk(d: Disk, i: nat)
    ensures NodesOf(DiskItems(d, i)) == ChainNodes(d, i, 0)
  {
    hide BlkProps, DriveProps;
    var images := if d.chain != [] then Blocks(ChainNodes(d, i, 0)) else [Listed("-drive", DriveProps(d, i))];
    NodesConcat(images, [Listed("-device", BlkProps(d, i))]);
    NodesOfNone([Listed("-device", BlkProps(d, i))]);
    if d.chain != [] {
      NodesOfBlocks(ChainNodes(d, i, 0));
    } else {
      NodesOfNone(images);
    }
  }

  lemma {:induction false} NodesOfDisks(ds: seq<Disk>, n: nat)
    requires n <= |ds|
    ensures NodesOf(DisksItems(ds, n)) == DiskNodes(ds, n)
  {
    hide NodesOf, DiskItems, ChainNodes;
    if n == 0 {
      NodesOfNone([]);
    } else {
      NodesOfDisks(ds, n - 1);
      NodesOfDisk(ds[n - 1], n - 1);
      NodesConcat(DisksItems(ds, n - 1), DiskItems(ds[n - 1], n - 1));
    }
  }

  lemma {:induction false} NoNICBlocks(ns: seq<NIC>, n: nat)
    requires n <= |ns|
    ensures NoBlocks(NICsItems(ns, n))
  {
    hide NetdevProps, NetProps;
    if n > 0 {
      NoNICBlocks(ns, n - 1);
    }
  }

  lemma {:induction false} NoMonitorBlocks(ms: seq<Monitor>, n: nat)
    requires n <= |ms|
    ensures NoBlocks(MonitorsItems(ms, n))
  {
    hide QmpChardevProps, QmpMonitorProps;
    if n > 0 {
      NoMonitorBlocks(ms, n - 1);
    }
  }

  lemma {:induction false} NoFDBlocks(f: FDSet, n: nat)
    requires n <= |f.fds|
    ensures NoBlocks(FDItems(f, n))
  {
    hide FDProps;
    if n > 0 {
      NoFDBlocks(f, n - 1);
    }
  }

  lemma {:induction false} NoFDSetBlocks(fs: seq<FDSet>, n: nat)
    requires n <= |fs|
    ensures NoBlocks(FDSetsItems(fs, n))
  {
    if n > 0 {
      NoFDSetBlocks(fs, n - 1);
      NoFDBlocks(fs[n - 1], |fs[n - 1].fds|);
    }
  }

  lemma NoDeviceBlocks(s: Spec)
    ensures NoBlocks(DeviceItems(s))
  {
    hide VsockProps, GrowthProps, VirtioMemProps, ScsiProps, RngProps, BalloonProps;
    assert NoBlocks(FixedDeviceItems()) && NoBlocks(VsockItems(s)) && NoBlocks(GrowthItems(s)) &&
        NoBlocks(HotplugItems(s));
  }

  lemma NoHeadBlocks(s: Spec)
    ensures NoBlocks(HeadItems(s)) && NoBlocks(ShapeItems(s))
  {
    hide AccelProps, ShapeOf;
  }

  lemma NoOtherBlocks(s: Spec)
    ensures NoBlocks(CHIPSET) && NoBlocks(BootItems(s)) && NoBlocks(ConsoleItems(s)) && NoBlocks(IncomingItems(s))
  {
    hide ConsoleProps;
  }

  lemma NoFrontBlocks(s: Spec)
    ensures NoBlocks(HeadItems(s) + ShapeItems(s) + CHIPSET + BootItems(s) + DeviceItems(s))
  {
    hide DeviceItems, HeadItems, ShapeItems, BootItems;
    NoDeviceBlocks(s);
    NoHeadBlocks(s);
    NoOtherBlocks(s);
  }

  lemma NoBackBlocks(s: Spec)
    ensures NoBlocks(NICsItems(s.nics, |s.nics|) + ConsoleItems(s) + MonitorsItems(s.monitors, |s.monitors|) +
                     FDSetsItems(s.fdSets, |s.fdSets|) + IncomingItems(s))
  {
    hide NICsItems, ConsoleItems, MonitorsItems, FDSetsItems, IncomingItems, HeadItems, ShapeItems, BootItems,
        DeviceItems;
    NoOtherBlocks(s);
    NoNICBlocks(s.nics, |s.nics|);
    NoMonitorBlocks(s.monitors, |s.monitors|);
    NoFDSetBlocks(s.fdSets, |s.fdSets|);
  }

  lemma NodesOfAll(s: Spec)
    ensures NodesOf(AllItems(s)) == DiskNodes(s.disks, |s.disks|)
  {
    hide NICsItems, ConsoleItems, MonitorsItems, FDSetsItems, IncomingItems, HeadItems, ShapeItems, BootItems,
         DeviceItems, DisksItems, NodesOf, NoBlocks, DiskNodes;
    var front := HeadItems(s) + ShapeItems(s) + CHIPSET + BootItems(s) + DeviceItems(s);
    var disks := DisksItems(s.disks, |s.disks|);
    var back := NICsItems(s.nics, |s.nics|) + ConsoleItems(s) + MonitorsItems(s.monitors, |s.monitors|) +
                FDSetsItems(s.fdSets, |s.fdSets|) + IncomingItems(s);
    NoFrontBlocks(s);
    NoBackBlocks(s);
    NodesOfNone(front);
    NodesOfNone(back);
    NodesOfDisks(s.disks, |s.disks|);
    NodesConcat(front, disks);
    NodesConcat(front + disks, back);
    assert AllItems(s) == front + disks + back;
  }

  lemma {:induction false} NodesReadAll(items: seq<Item>)
    ensures NodesRead(ReadAsAll(items)) == NodesOf(items)
  {
    if items != [] {
      NodesReadAll(items[1..]);
      assert ReadAsAll(items)[1..] == ReadAsAll(items[1..]);
    }
  }

  // ----- the theorem

  /** The image at a depth of a disk's chain: on its descriptor set and in its format, read-only below the
      top and at the top as the disk says; locked only at the top and when asked to; and past the host's
      cache at the top, and through it below, when the disk asks for that. */
  function LayerOf(d: Disk, k: nat): Layer
    requires k < |d.chain|
  {
    Layer("/dev/fdset/" + Itoa(d.chain[k].fdSet), d.chain[k].format, d.readonly || k > 0, d.readonly || k > 0,
          if d.locking && k == 0 then "on" else "", if d.directOverBacking then Some(k == 0) else None,
          "io_uring", false, "unmap", "unmap")
  }

  lemma {:induction false} WalkImage(d: Disk, i: nat, j: nat)
    requires j < |d.chain|
    ensures |Walk(Image(d, i, j))| == |d.chain| - j
    ensures forall k | j <= k < |d.chain| ::
              Walk(Image(d, i, j))[k - j] == LayerOf(d, k)
    ensures Bottom(Image(d, i, j)) == if d.chain[|d.chain| - 1].format == "raw" then HeaderDecides else NothingUnder
    decreases |d.chain| - j
  {
    hide Walk, Bottom, Image, LayerOf;
    WalkStep(d, i, j);
    if j < |d.chain| - 1 {
      WalkImage(d, i, j + 1);
    }
  }

  lemma WalkStep(d: Disk, i: nat, j: nat)
    requires j < |d.chain|
    ensures Walk(Image(d, i, j)) ==
            [LayerOf(d, j)] + (if j < |d.chain| - 1 then Walk(Image(d, i, j + 1)) else [])
    ensures Bottom(Image(d, i, j)) ==
            if j < |d.chain| - 1 then Bottom(Image(d, i, j + 1))
            else if d.chain[j].format != "raw" then NothingUnder else HeaderDecides
  {
    hide NodeName, FileName, Itoa;
    if j < |d.chain| - 1 {
      ImageIsFormat(d, i, j + 1);
    }
  }

  lemma ImageIsFormat(d: Disk, i: nat, j: nat)
    requires j < |d.chain|
    ensures Image(d, i, j).OpenFormat?
  {
  }

  /** What is behind an opened image is exactly the chain of a disk, top first. No image's header is
      followed: the base ends in null, or is raw and has none to follow. */
  predicate IsChain(o: Opened, d: Disk)
    requires d.chain != []
  {
    && |Walk(o)| == |d.chain|
    && (forall k | 0 <= k < |d.chain| :: Walk(o)[k] == LayerOf(d, k))
    && Bottom(o) == if d.chain[|d.chain| - 1].format == "raw" then HeaderDecides else NothingUnder
  }

  lemma WalkIsChain(d: Disk, i: nat)
    requires d.chain != []
    ensures IsChain(Image(d, i, 0), d)
  {
    hide Walk, Bottom, Image, LayerOf;
    WalkImage(d, i, 0);
    forall k | 0 <= k < |d.chain| ensures Walk(Image(d, i, 0))[k] == LayerOf(d, k) {
      assert Walk(Image(d, i, 0))[k - 0] == LayerOf(d, k);
    }
  }

  lemma TopName(i: nat)
    ensures NodeName(i, 0) == "blk" + Itoa(i)
  {
    assert [Itoa(i)] + DepthSuffix(0) == [Itoa(i)];
  }

  /** QEMU opens every node of an accepted machine, in order, and behind each chain disk it has the
      disk's chain. */
  lemma ChainsReadBack(s: Spec, i: nat)
    requires Accepts(s) && i < |s.disks| && s.disks[i].chain != []
    ensures var read := ReadArgv(RenderedAll(AllItems(s)));
            && read.Some? && Open(NodesRead(read.value), map[]).Some?
            && var g := Open(NodesRead(read.value), map[]).value;
               "blk" + Itoa(i) in g && IsChain(g["blk" + Itoa(i)], s.disks[i])
  {
    hide NodeName, IsChain, AllItems, RenderedAll, ReadArgv, DiskNodes, Open, NodesRead, NodesOf, Accepts, ReadAsAll,
         MeantByAll, NamesItsOption, Image;
    TopName(i);
    Readback.CommandLineIsReadBack(s);
    NodesReadAll(AllItems(s));
    NodesOfAll(s);
    OpenDisks(s.disks, |s.disks|);
    WalkIsChain(s.disks[i], i);
  }
}
