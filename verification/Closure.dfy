/** The command line of an accepted machine is closed and free of collisions. */
module Closure {
  import opened Text
  import opened QemuOptions
  import opened Argv
  import opened Machine
  import opened Args
  import opened References
  import Readback

  predicate AllIn(xs: seq<string>, ys: seq<string>) {
    forall x | x in xs :: x in ys
  }

  lemma DistinctConcat<T>(a: seq<T>, b: seq<T>)
    requires Distinct(a) && Distinct(b)
    requires forall x | x in a :: x !in b
    ensures Distinct(a + b)
  {
    forall i, j | 0 <= i < j < |a + b| ensures (a + b)[i] != (a + b)[j] {
      if i < |a| <= j {
        assert a[i] in a && b[j - |a|] in b;
      }
    }
  }

  // ----- node names

  lemma PartsAreClean(i: nat, j: nat)
    ensures forall p | p in [Itoa(i)] + DepthSuffix(j) + ["file"] :: '-' !in p
  {
    ItoaShape(i);
    ItoaShape(j);
  }

  lemma NodeNamesDiffer(i: nat, j: nat, i': nat, j': nat)
    ensures NodeName(i, j) == NodeName(i', j') ==> i == i' && j == j'
    ensures FileName(i, j) == FileName(i', j') ==> i == i' && j == j'
  {
    PartsAreClean(i, j);
    PartsAreClean(i', j');
    var a, b := [Itoa(i)] + DepthSuffix(j), [Itoa(i')] + DepthSuffix(j');
    if NodeName(i, j) == NodeName(i', j') {
      assert NodeName(i, j)[3..] == Join(a, "-") && NodeName(i', j')[3..] == Join(b, "-");
      JoinInjective(a, b, '-');
      PartsSay(i, j, i', j');
    }
    if FileName(i, j) == FileName(i', j') {
      assert FileName(i, j)[3..] == Join(a + ["file"], "-") && FileName(i', j')[3..] == Join(b + ["file"], "-");
      JoinInjective(a + ["file"], b + ["file"], '-');
      assert a == (a + ["file"])[..|a|] && b == (b + ["file"])[..|b|];
      PartsSay(i, j, i', j');
    }
  }

  lemma PartsSay(i: nat, j: nat, i': nat, j': nat)
    requires [Itoa(i)] + DepthSuffix(j) == [Itoa(i')] + DepthSuffix(j')
    ensures i == i' && j == j'
  {
    var a, b := [Itoa(i)] + DepthSuffix(j), [Itoa(i')] + DepthSuffix(j');
    assert a[0] == b[0];
    ItoaInjective(i, i');
    assert |a| == 2 ==> a[1] == Itoa(j) && b[1] == Itoa(j');
    if j != 0 {
      ItoaInjective(j, j');
    }
  }

  lemma ItoaIsNotFile(n: nat)
    ensures Itoa(n) != "file"
  {
    ItoaShape(n);
    assert Itoa(n)[0] in Itoa(n);
  }

  lemma PartsDiffer(i: nat, j: nat, i': nat, j': nat)
    ensures [Itoa(i)] + DepthSuffix(j) != [Itoa(i')] + DepthSuffix(j') + ["file"]
  {
    ItoaIsNotFile(i);
    ItoaIsNotFile(j);
    var a, b := [Itoa(i)] + DepthSuffix(j), [Itoa(i')] + DepthSuffix(j') + ["file"];
    assert b[|b| - 1] == "file" && a[|a| - 1] != "file";
  }

  lemma NodeIsNotFile(i: nat, j: nat, i': nat, j': nat)
    ensures NodeName(i, j) != FileName(i', j')
  {
    hide Itoa;
    PartsAreClean(i, j);
    PartsAreClean(i', j');
    PartsDiffer(i, j, i', j');
    var a, b := [Itoa(i)] + DepthSuffix(j), [Itoa(i')] + DepthSuffix(j') + ["file"];
    assert NodeName(i, j)[3..] == Join(a, "-") && FileName(i', j')[3..] == Join(b, "-");
    if Join(a, "-") == Join(b, "-") {
      JoinInjective(a, b, '-');
    }
  }

  // ----- the nodes of the disks

  /** x names a node of disk i between two depths. */
  predicate IsOf(x: string, i: nat, from: nat, to: nat) {
    exists k | from <= k < to :: x == NodeName(i, k) || x == FileName(i, k)
  }

  lemma {:induction false} AskNodesConcat(a: seq<Node>, b: seq<Node>, q: Query)
    ensures AskNodes(a + b, q) == AskNodes(a, q) + AskNodes(b, q)
  {
    if a == [] {
      assert a + b == b;
    } else {
      assert (a + b)[1..] == a[1..] + b;
      AskNodesConcat(a[1..], b, q);
    }
  }

  lemma AskTwoNodes(a: Node, b: Node, q: Query)
    ensures AskNodes([a, b], q) == AskNode(a, q) + AskNode(b, q)
  {
    assert [a, b][1..] == [b] && [b][1..] == [];
    assert AskNodes([b], q) == AskNode(b, q);
  }

  lemma ChainStep(d: Disk, i: nat, j: nat, q: Query)
    requires j < |d.chain|
    ensures AskNodes(ChainNodes(d, i, j), q) ==
            AskNodes(ChainNodes(d, i, j + 1), q) + (AskNode(FileOf(d, i, j), q) + AskNode(FormatOf(d, i, j), q))
  {
    AskNodesConcat(ChainNodes(d, i, j + 1), [FileOf(d, i, j), FormatOf(d, i, j)], q);
    AskTwoNodes(FileOf(d, i, j), FormatOf(d, i, j), q);
  }

  lemma NoChainLeft(d: Disk, i: nat, j: nat, q: Query)
    requires j >= |d.chain|
    ensures AskNodes(ChainNodes(d, i, j), q) == []
  {
  }

  predicate NamesFrom(names: seq<string>, i: nat, j: nat, to: nat) {
    && Distinct(names)
    && (forall x | x in names :: IsOf(x, i, j, to))
    && (forall k | j <= k < to :: NodeName(i, k) in names && FileName(i, k) in names)
  }

  lemma NamesFromNone(i: nat, to: nat)
    ensures NamesFrom([], i, to, to)
  {
  }

  lemma NamesFromNext(below: seq<string>, i: nat, j: nat, to: nat)
    requires j < to && NamesFrom(below, i, j + 1, to)
    ensures NamesFrom(below + [FileName(i, j), NodeName(i, j)], i, j, to)
  {
    hide NodeName, FileName;
    var own := [FileName(i, j), NodeName(i, j)];
    NodeIsNotFile(i, j, i, j);
    forall x | x in below ensures x !in own && IsOf(x, i, j, to) {
      assert IsOf(x, i, j + 1, to);
      var k :| j + 1 <= k < to && (x == NodeName(i, k) || x == FileName(i, k));
      NodeNamesDiffer(i, k, i, j);
      NodeIsNotFile(i, k, i, j);
      NodeIsNotFile(i, j, i, k);
    }
    DistinctConcat(below, own);
    forall k | j <= k < to ensures NodeName(i, k) in below + own && FileName(i, k) in below + own {
      if k == j {
        assert own[0] == FileName(i, j) && own[1] == NodeName(i, j);
      }
    }
  }

  lemma {:induction false} ChainNames(d: Disk, i: nat, j: nat)
    requires j <= |d.chain|
    ensures NamesFrom(AskNodes(ChainNodes(d, i, j), DefinesNode), i, j, |d.chain|)
    decreases |d.chain| - j
  {
    hide NodeName, FileName, FDSetPath, NamesFrom;
    NamesFromNone(i, |d.chain|);
    if j < |d.chain| {
      ChainNames(d, i, j + 1);
      ChainStep(d, i, j, DefinesNode);
      NamesFromNext(AskNodes(ChainNodes(d, i, j + 1), DefinesNode), i, j, |d.chain|);
      assert AskNode(FileOf(d, i, j), DefinesNode) + AskNode(FormatOf(d, i, j), DefinesNode)
          == [FileName(i, j), NodeName(i, j)];
    }
  }

  lemma {:induction false} ChainReferences(d: Disk, i: nat, j: nat)
    ensures forall x | x in AskNodes(ChainNodes(d, i, j), RefersNode) :: IsOf(x, i, j, |d.chain|)
    decreases |d.chain| - j
  {
    hide AskNodes, ChainNodes, IsOf, NodeName, FileName, FDSetPath;
    if j < |d.chain| {
      ChainReferences(d, i, j + 1);
      ChainStep(d, i, j, RefersNode);
      var own := AskNode(FileOf(d, i, j), RefersNode) + AskNode(FormatOf(d, i, j), RefersNode);
      forall x | x in AskNodes(ChainNodes(d, i, j), RefersNode) ensures IsOf(x, i, j, |d.chain|) {
        if x in AskNodes(ChainNodes(d, i, j + 1), RefersNode) {
          OfMore(x, i, j, |d.chain|);
        } else {
          assert x in own;
          OwnReference(x, i, j, |d.chain|);
        }
      }
    } else {
      NoChainLeft(d, i, j, RefersNode);
    }
  }

  lemma OfMore(x: string, i: nat, j: nat, to: nat)
    requires IsOf(x, i, j + 1, to)
    ensures IsOf(x, i, j, to)
  {
    hide NodeName, FileName;
    var k :| j + 1 <= k < to && (x == NodeName(i, k) || x == FileName(i, k));
  }

  lemma OwnReference(x: string, i: nat, j: nat, to: nat)
    requires j < to && (x == FileName(i, j) || (j + 1 < to && x == NodeName(i, j + 1)))
    ensures IsOf(x, i, j, to)
  {
    hide NodeName, FileName;
  }

  predicate DiskNamed(names: seq<string>, refs: seq<string>, i: nat, to: nat) {
    Distinct(names) && AllIn(refs, names) && forall x | x in names :: IsOf(x, i, 0, to)
  }

  lemma PathDiskNamed(name: string, i: nat)
    requires name == NodeName(i, 0)
    ensures DiskNamed([name], [name], i, 1)
  {
  }

  lemma ChainDiskNamed(names: seq<string>, refs: seq<string>, i: nat, to: nat)
    requires to > 0 && NamesFrom(names, i, 0, to) && forall x | x in refs :: IsOf(x, i, 0, to)
    ensures DiskNamed(names, refs + [NodeName(i, 0)], i, to)
  {
    hide NodeName, FileName;
    forall x | x in refs + [NodeName(i, 0)] ensures x in names {
      if x in refs {
        assert IsOf(x, i, 0, to);
      }
    }
  }

  lemma DiskNames(d: Disk, i: nat)
    ensures DiskNamed(DiskAnswer(d, i, DefinesNode), DiskAnswer(d, i, RefersNode), i, |d.chain| + 1)
  {
    hide NodeName, FileName, AskNodes, ChainNodes, NamesFrom;
    if d.chain == [] {
      PathDiskNamed(NodeName(i, 0), i);
    } else {
      ChainNames(d, i, 0);
      ChainReferences(d, i, 0);
      ChainDiskNamed(AskNodes(ChainNodes(d, i, 0), DefinesNode), AskNodes(ChainNodes(d, i, 0), RefersNode),
                     i, |d.chain|);
      var names := DiskAnswer(d, i, DefinesNode);
      assert names == AskNodes(ChainNodes(d, i, 0), DefinesNode);
      forall x | x in names ensures IsOf(x, i, 0, |d.chain| + 1) {
        var k :| 0 <= k < |d.chain| && (x == NodeName(i, k) || x == FileName(i, k));
      }
    }
  }

  ghost predicate DisksNamed(names: seq<string>, refs: seq<string>, n: nat) {
    && Distinct(names) && AllIn(refs, names)
    && forall x | x in names :: exists i, to: nat | 0 <= i < n :: IsOf(x, i, 0, to)
  }

  lemma DisksNamedNext(names: seq<string>, refs: seq<string>, n: nat, more: seq<string>, moreRefs: seq<string>, to: nat)
    requires DisksNamed(names, refs, n) && DiskNamed(more, moreRefs, n, to)
    ensures DisksNamed(names + more, refs + moreRefs, n + 1)
  {
    hide IsOf;
    forall x | x in names ensures x !in more {
      var i, m: nat :| 0 <= i < n && IsOf(x, i, 0, m);
      if x in more {
        OneDisk(x, i, m, n, to);
      }
    }
    DistinctConcat(names, more);
    forall x | x in names + more ensures exists i, m: nat | 0 <= i < n + 1 :: IsOf(x, i, 0, m) {
      if x in names {
        var i, m: nat :| 0 <= i < n && IsOf(x, i, 0, m);
      } else {
        assert IsOf(x, n, 0, to);
      }
    }
  }

  lemma {:induction false} DisksNames(ds: seq<Disk>, n: nat)
    requires n <= |ds|
    ensures DisksNamed(DisksAnswer(ds, n, DefinesNode), DisksAnswer(ds, n, RefersNode), n)
  {
    hide DiskAnswer, DiskNamed;
    if n > 0 {
      var d := ds[n - 1];
      DisksNames(ds, n - 1);
      DiskNames(d, n - 1);
      DisksNamedNext(DisksAnswer(ds, n - 1, DefinesNode), DisksAnswer(ds, n - 1, RefersNode), n - 1,
                     DiskAnswer(d, n - 1, DefinesNode), DiskAnswer(d, n - 1, RefersNode), |d.chain| + 1);
    }
  }

  lemma OneDisk(x: string, i: nat, m: nat, i': nat, m': nat)
    requires IsOf(x, i, 0, m) && IsOf(x, i', 0, m')
    ensures i == i'
  {
    var k :| 0 <= k < m && (x == NodeName(i, k) || x == FileName(i, k));
    var k' :| 0 <= k' < m' && (x == NodeName(i', k') || x == FileName(i', k'));
    NodeNamesDiffer(i, k, i', k');
    NodeIsNotFile(i, k, i', k');
    NodeIsNotFile(i', k', i, k);
  }

  // ----- parts that answer nothing

  lemma DiskSilent(d: Disk, i: nat, q: Query)
    requires !q.DefinesNode? && !q.RefersNode? && !q.RefersSet? && !q.Slots?
    ensures DiskAnswer(d, i, q) == []
  {
    NodesSilent(ChainNodes(d, i, 0), q);
  }

  lemma {:induction false} DisksSilent(ds: seq<Disk>, n: nat, q: Query)
    requires n <= |ds|
    requires !q.DefinesNode? && !q.RefersNode? && !q.RefersSet? && !q.Slots?
    ensures DisksAnswer(ds, n, q) == []
  {
    hide DiskAnswer;
    if n > 0 {
      DisksSilent(ds, n - 1, q);
      DiskSilent(ds[n - 1], n - 1, q);
    }
  }

  lemma {:induction false} NodesSilent(nodes: seq<Node>, q: Query)
    requires !q.DefinesNode? && !q.RefersNode? && !q.RefersSet?
    ensures AskNodes(nodes, q) == []
  {
    if nodes != [] {
      NodesSilent(nodes[1..], q);
    }
  }

  lemma {:induction false} NICsSilent(n: nat, q: Query)
    requires !q.DefinesNetdev? && !q.RefersNetdev? && !q.Slots?
    ensures NICsAnswer(n, q) == []
  {
    if n > 0 {
      NICsSilent(n - 1, q);
    }
  }

  lemma {:induction false} MonitorsSilent(ms: seq<Monitor>, n: nat, q: Query)
    requires n <= |ms| && !q.DefinesChardev? && !q.RefersChardev? && !q.DefinesObject?
    ensures MonitorsAnswer(ms, n, q) == []
  {
    if n > 0 {
      MonitorsSilent(ms, n - 1, q);
    }
  }

  // ----- names of the other kinds

  lemma {:induction false} NetNames(n: nat)
    ensures Distinct(NICsAnswer(n, DefinesNetdev)) && NICsAnswer(n, RefersNetdev) == NICsAnswer(n, DefinesNetdev)
    ensures forall x | x in NICsAnswer(n, DefinesNetdev) :: exists i | 0 <= i < n :: x == NetName(i)
  {
    if n > 0 {
      NetNames(n - 1);
      var before := NICsAnswer(n - 1, DefinesNetdev);
      forall x | x in before ensures x !in [NetName(n - 1)] {
        var i :| 0 <= i < n - 1 && x == NetName(i);
        PrefixedDiffer("net", i, n - 1);
      }
      DistinctConcat(before, [NetName(n - 1)]);
    }
  }

  lemma PrefixedDiffer(prefix: string, i: nat, j: nat)
    ensures prefix + Itoa(i) == prefix + Itoa(j) ==> i == j
  {
    assert (prefix + Itoa(i))[|prefix|..] == Itoa(i) && (prefix + Itoa(j))[|prefix|..] == Itoa(j);
    if Itoa(i) == Itoa(j) {
      ItoaInjective(i, j);
    }
  }

  /** The chardev names of the monitors: numbered, and there exactly for those on a descriptor. */
  ghost predicate MonitorsNamed(names: seq<string>, ms: seq<Monitor>, n: nat)
    requires n <= |ms|
  {
    && Distinct(names)
    && (forall x | x in names :: exists i | 0 <= i < n :: x == QmpName(i))
    && (forall i | 0 <= i < n && ms[i].socket == "" :: QmpName(i) in names)
    && (forall i | 0 <= i < n :: QmpName(i) in names ==> ms[i].socket == "")
  }

  lemma MonitorsNamedNext(names: seq<string>, ms: seq<Monitor>, n: nat)
    requires n < |ms| && MonitorsNamed(names, ms, n)
    ensures MonitorsNamed(if ms[n].socket == "" then names + [QmpName(n)] else names, ms, n + 1)
  {
    hide Itoa;
    forall i | 0 <= i < n ensures QmpName(i) != QmpName(n) {
      PrefixedDiffer("qmp", i, n);
    }
    hide QmpName;
    assert QmpName(n) !in names;
    if ms[n].socket == "" {
      DistinctConcat(names, [QmpName(n)]);
    }
  }

  lemma NoMonitorsNamed(ms: seq<Monitor>)
    ensures MonitorsNamed([], ms, 0)
  {
  }

  lemma MonitorAnswered(m: Monitor, i: nat)
    ensures MonitorAnswer(m, i, DefinesChardev) == if m.socket == "" then [QmpName(i)] else []
    ensures MonitorAnswer(m, i, RefersChardev) == MonitorAnswer(m, i, DefinesChardev)
    ensures MonitorAnswer(m, i, DefinesObject) == if m.socket == "" then [MonName(i)] else []
  {
    hide QmpName;
  }

  lemma {:induction false} MonitorNames(ms: seq<Monitor>, n: nat)
    requires n <= |ms|
    ensures MonitorsNamed(MonitorsAnswer(ms, n, DefinesChardev), ms, n)
    ensures MonitorsAnswer(ms, n, RefersChardev) == MonitorsAnswer(ms, n, DefinesChardev)
  {
    hide MonitorAnswer, MonitorsNamed;
    if n == 0 {
      NoMonitorsNamed(ms);
    } else {
      MonitorNames(ms, n - 1);
      MonitorAnswered(ms[n - 1], n - 1);
      var names := MonitorsAnswer(ms, n - 1, DefinesChardev);
      assert names + [] == names;
      MonitorsNamedNext(names, ms, n - 1);
    }
  }

  function MonName(i: nat): string { "mon-" + QmpName(i) }

  lemma MonNamesDiffer(i: nat, j: nat)
    ensures MonName(i) == MonName(j) ==> i == j
  {
    hide QmpName;
    assert MonName(i)[4..] == QmpName(i) && MonName(j)[4..] == QmpName(j);
    PrefixedDiffer("qmp", i, j);
    QmpNameIs(i);
    QmpNameIs(j);
  }

  lemma QmpNameIs(i: nat)
    ensures QmpName(i) == "qmp" + Itoa(i)
  {
    hide Itoa;
  }

  lemma {:induction false} MonitorObjects(ms: seq<Monitor>, n: nat)
    requires n <= |ms|
    ensures Distinct(MonitorsAnswer(ms, n, DefinesObject))
    ensures forall x | x in MonitorsAnswer(ms, n, DefinesObject) :: exists i | 0 <= i < n :: x == MonName(i)
  {
    hide MonitorAnswer, MonName;
    if n > 0 {
      MonitorObjects(ms, n - 1);
      MonitorAnswered(ms[n - 1], n - 1);
      var before := MonitorsAnswer(ms, n - 1, DefinesObject);
      var own := MonName(n - 1);
      forall x | x in before ensures x !in [own] {
        var i :| 0 <= i < n - 1 && x == MonName(i);
        MonNamesDiffer(i, n - 1);
      }
      if ms[n - 1].socket == "" {
        DistinctConcat(before, [own]);
      }
    }
  }

  // ----- the whole command line, part by part

  /** What the parts answer makes up what the whole answers. */
  lemma Parts(s: Spec, q: Query, shape: seq<string>, devices: seq<string>, disks: seq<string>, nics: seq<string>,
              console: seq<string>, monitors: seq<string>, sets: seq<string>)
    requires Of(ShapeItems(s), q) == shape && Of(DeviceItems(s), q) == devices
    requires DisksAnswer(s.disks, |s.disks|, q) == disks && NICsAnswer(|s.nics|, q) == nics
    requires ConsoleAnswer(s, q) == console && MonitorsAnswer(s.monitors, |s.monitors|, q) == monitors
    requires FDSetsAnswer(s.fdSets, |s.fdSets|, q) == sets
    ensures Of(AllItems(s), q) == shape + devices + disks + nics + console + monitors + sets
  {
    AllAnswers(s, q);
  }

  lemma SetsSilent(s: Spec, q: Query)
    requires !q.DefinesSet?
    ensures FDSetsAnswer(s.fdSets, |s.fdSets|, q) == []
  {
  }

  lemma ShapeSilent(s: Spec, q: Query)
    requires !q.RefersSet?
    ensures Of(ShapeItems(s), q) == []
  {
    ShapeAnswers(s, q);
  }

  lemma DevicesSilent(s: Spec, q: Query)
    requires !q.Slots? && !q.DefinesObject? && !q.RefersObject?
    ensures Of(DeviceItems(s), q) == []
  {
    DeviceAnswers(s, q);
  }

  lemma ConsoleSilent(s: Spec, q: Query)
    requires !q.DefinesChardev? && !q.RefersChardev? && !q.RefersSet?
    ensures ConsoleAnswer(s, q) == []
  {
  }

  // ----- the theorems

  /** Every block node, network backend and memory backend named on the command line is defined
      there exactly once. */
  lemma NamesResolve(s: Spec)
    ensures var items := AllItems(s);
            && Distinct(Of(items, DefinesNode)) && AllIn(Of(items, RefersNode), Of(items, DefinesNode))
            && Distinct(Of(items, DefinesNetdev)) && AllIn(Of(items, RefersNetdev), Of(items, DefinesNetdev))
            && Distinct(Of(items, DefinesObject)) && AllIn(Of(items, RefersObject), Of(items, DefinesObject))
  {
    NodesResolve(s);
    NetdevsResolve(s);
    ObjectsResolve(s);
  }

  lemma NodesResolve(s: Spec)
    ensures Of(AllItems(s), DefinesNode) == DisksAnswer(s.disks, |s.disks|, DefinesNode)
    ensures Of(AllItems(s), RefersNode) == DisksAnswer(s.disks, |s.disks|, RefersNode)
    ensures Distinct(Of(AllItems(s), DefinesNode)) && AllIn(Of(AllItems(s), RefersNode), Of(AllItems(s), DefinesNode))
  {
    OnlyDisksAnswer(s, DefinesNode);
    OnlyDisksAnswer(s, RefersNode);
    DisksNames(s.disks, |s.disks|);
  }

  lemma OnlyDisksAnswer(s: Spec, q: Query)
    requires q.DefinesNode? || q.RefersNode?
    ensures Of(AllItems(s), q) == DisksAnswer(s.disks, |s.disks|, q)
  {
    hide *;
    ShapeSilent(s, q);
    DevicesSilent(s, q);
    NICsSilent(|s.nics|, q);
    ConsoleSilent(s, q);
    MonitorsSilent(s.monitors, |s.monitors|, q);
    SetsSilent(s, q);
    Parts(s, q, [], [], DisksAnswer(s.disks, |s.disks|, q), [], [], [], []);
  }

  lemma NetdevsResolve(s: Spec)
    ensures Distinct(Of(AllItems(s), DefinesNetdev))
    ensures AllIn(Of(AllItems(s), RefersNetdev), Of(AllItems(s), DefinesNetdev))
  {
    OnlyNICsAnswer(s, DefinesNetdev);
    OnlyNICsAnswer(s, RefersNetdev);
    NetNames(|s.nics|);
  }

  lemma OnlyNICsAnswer(s: Spec, q: Query)
    requires q.DefinesNetdev? || q.RefersNetdev?
    ensures Of(AllItems(s), q) == NICsAnswer(|s.nics|, q)
  {
    hide *;
    ShapeSilent(s, q);
    DevicesSilent(s, q);
    DisksSilent(s.disks, |s.disks|, q);
    ConsoleSilent(s, q);
    MonitorsSilent(s.monitors, |s.monitors|, q);
    SetsSilent(s, q);
    Parts(s, q, [], [], [], NICsAnswer(|s.nics|, q), [], [], []);
  }

  lemma ObjectAnswers(s: Spec, q: Query)
    requires q.DefinesObject? || q.RefersObject?
    ensures Of(AllItems(s), q) == Of(DeviceItems(s), q) + MonitorsAnswer(s.monitors, |s.monitors|, q)
  {
    hide *;
    ShapeSilent(s, q);
    DisksSilent(s.disks, |s.disks|, q);
    NICsSilent(|s.nics|, q);
    ConsoleSilent(s, q);
    SetsSilent(s, q);
    Parts(s, q, [], Of(DeviceItems(s), q), [], [], [], MonitorsAnswer(s.monitors, |s.monitors|, q), []);
  }

  lemma ObjectsResolve(s: Spec)
    ensures Distinct(Of(AllItems(s), DefinesObject))
    ensures AllIn(Of(AllItems(s), RefersObject), Of(AllItems(s), DefinesObject))
  {
    hide DeviceItems, MonitorsAnswer, AllItems, Of;
    ObjectAnswers(s, DefinesObject);
    ObjectAnswers(s, RefersObject);
    DeviceAnswers(s, DefinesObject);
    DeviceAnswers(s, RefersObject);
    MonitorsSilent(s.monitors, |s.monitors|, RefersObject);
    MonitorObjects(s.monitors, |s.monitors|);
    var growth := Of(DeviceItems(s), DefinesObject);
    var mons := MonitorsAnswer(s.monitors, |s.monitors|, DefinesObject);
    forall x | x in growth ensures x !in mons {
      assert x[1] == 'e';
    }
    DistinctConcat(growth, mons);
  }

  /** The one name the machine does not choose: a caller's console may itself name a chardev. It
      dangles when it names none of the monitors' own. */
  predicate SerialDangles(s: Spec) {
    s.serialFDSet == 0 && NamesChardev(s.serial) &&
    forall i | 0 <= i < |s.monitors| :: s.monitors[i].socket == "" ==> s.serial[8..] != QmpName(i)
  }

  /** Chardevs are defined once each, and every one named is defined, exactly unless the
      caller's own console names one that is not there: validate looks inside no Serial. */
  lemma ChardevsResolve(s: Spec)
    ensures var items := AllItems(s);
            && Distinct(Of(items, DefinesChardev))
            && (AllIn(Of(items, RefersChardev), Of(items, DefinesChardev)) <==> !SerialDangles(s))
  {
    hide MonitorsAnswer, AllItems, Of, QmpName;
    ChardevAnswers(s, DefinesChardev);
    ChardevAnswers(s, RefersChardev);
    MonitorNames(s.monitors, |s.monitors|);
    var names := MonitorsAnswer(s.monitors, |s.monitors|, DefinesChardev);
    if s.serialFDSet != 0 {
      forall x | x in ["serial0"] ensures x !in names {
        if x in names {
          var i :| 0 <= i < |s.monitors| && x == QmpName(i);
          QmpIsNotSerial(i);
        }
      }
      DistinctConcat(["serial0"], names);
    } else {
      assert [] + names == names;
      if NamesChardev(s.serial) {
        SerialResolves(s, names);
      }
    }
  }

  lemma QmpIsNotSerial(i: nat)
    ensures QmpName(i) != "serial0"
  {
    assert QmpName(i)[0] == 'q';
  }

  lemma SerialResolves(s: Spec, names: seq<string>)
    requires s.serialFDSet == 0 && NamesChardev(s.serial)
    requires forall x | x in names :: exists i | 0 <= i < |s.monitors| :: x == QmpName(i)
    requires forall i | 0 <= i < |s.monitors| && s.monitors[i].socket == "" :: QmpName(i) in names
    requires forall i | 0 <= i < |s.monitors| :: QmpName(i) in names ==> s.monitors[i].socket == ""
    ensures AllIn([s.serial[8..]] + names, names) <==> !SerialDangles(s)
  {
    var x := s.serial[8..];
    assert x in [x] + names;
    if x in names {
      var i :| 0 <= i < |s.monitors| && x == QmpName(i);
    }
  }

  lemma ChardevAnswers(s: Spec, q: Query)
    requires q.DefinesChardev? || q.RefersChardev?
    ensures Of(AllItems(s), q) == ConsoleAnswer(s, q) + MonitorsAnswer(s.monitors, |s.monitors|, q)
  {
    hide *;
    ShapeSilent(s, q);
    DevicesSilent(s, q);
    DisksSilent(s.disks, |s.disks|, q);
    NICsSilent(|s.nics|, q);
    SetsSilent(s, q);
    Parts(s, q, [], [], [], [], ConsoleAnswer(s, q), MonitorsAnswer(s.monitors, |s.monitors|, q), []);
  }

  // ----- descriptor sets

  lemma {:induction false} SetsGiven(fs: seq<FDSet>, n: nat, id: int)
    requires n <= |fs| && (forall i | 0 <= i < n :: |fs[i].fds| > 0) && exists i | 0 <= i < n :: fs[i].id == id
    ensures Itoa(id) in FDSetsAnswer(fs, n, DefinesSet)
  {
    if fs[n - 1].id == id {
      RepeatHolds(Itoa(id), |fs[n - 1].fds|);
    } else {
      SetsGiven(fs, n - 1, id);
    }
  }

  lemma {:induction false} RepeatHolds(text: string, n: nat)
    requires n > 0
    ensures text in Repeat(text, n)
  {
    assert Repeat(text, n)[|Repeat(text, n)| - 1] == text;
  }

  predicate SetIsGiven(s: Spec, path: string) {
    exists id | id in SetIds(s.fdSets) :: path == FDSetPath(id)
  }

  lemma {:induction false} ChainSetsGiven(s: Spec, d: Disk, i: nat, j: nat)
    requires DiskOk(d, SetIds(s.fdSets))
    ensures forall x | x in AskNodes(ChainNodes(d, i, j), RefersSet) :: SetIsGiven(s, x)
    decreases |d.chain| - j
  {
    hide AskNodes, ChainNodes, SetIsGiven, DiskOk, SetIds, NodeName, FileName, FDSetPath;
    if j < |d.chain| {
      ChainSetsGiven(s, d, i, j + 1);
      ChainStep(d, i, j, RefersSet);
      ImageSetGiven(s, d, j);
    } else {
      NoChainLeft(d, i, j, RefersSet);
    }
  }

  lemma ImageSetGiven(s: Spec, d: Disk, j: nat)
    requires j < |d.chain| && DiskOk(d, SetIds(s.fdSets))
    ensures SetIsGiven(s, FDSetPath(d.chain[j].fdSet))
  {
    assert ImageOk(d, j, SetIds(s.fdSets));
  }

  lemma DiskSetGiven(s: Spec, d: Disk, i: nat)
    requires DiskOk(d, SetIds(s.fdSets))
    ensures forall x | x in DiskAnswer(d, i, RefersSet) :: SetIsGiven(s, x)
  {
    ChainSetsGiven(s, d, i, 0);
  }

  lemma {:induction false} DiskSetsGiven(s: Spec, n: nat)
    requires n <= |s.disks| && forall i | 0 <= i < n :: DiskOk(s.disks[i], SetIds(s.fdSets))
    ensures forall x | x in DisksAnswer(s.disks, n, RefersSet) :: SetIsGiven(s, x)
  {
    hide DiskAnswer, SetIsGiven, DiskOk, SetIds;
    if n > 0 {
      DiskSetsGiven(s, n - 1);
      DiskSetGiven(s, s.disks[n - 1], n - 1);
    }
  }

  lemma SetReferences(s: Spec)
    ensures Of(AllItems(s), RefersSet) ==
            Of(ShapeItems(s), RefersSet) + DisksAnswer(s.disks, |s.disks|, RefersSet) + ConsoleAnswer(s, RefersSet)
  {
    hide *;
    DevicesSilent(s, RefersSet);
    NICsSilent(|s.nics|, RefersSet);
    MonitorsSilent(s.monitors, |s.monitors|, RefersSet);
    SetsSilent(s, RefersSet);
    Parts(s, RefersSet, Of(ShapeItems(s), RefersSet), [], DisksAnswer(s.disks, |s.disks|, RefersSet), [],
          ConsoleAnswer(s, RefersSet), [], []);
  }

  lemma SetReferencesGiven(s: Spec, path: string)
    requires Accepts(s) && path in Of(AllItems(s), RefersSet)
    ensures SetIsGiven(s, path)
  {
    hide DisksAnswer, AllItems, Of, FDSetPath, ShapeItems;
    SetReferences(s);
    ShapeAnswers(s, RefersSet);
    DiskSetsGiven(s, |s.disks|);
    assert s.kvmFDSet in SetIds(s.fdSets) ==> SetIsGiven(s, FDSetPath(s.kvmFDSet));
    assert s.serialFDSet in SetIds(s.fdSets) ==> SetIsGiven(s, FDSetPath(s.serialFDSet));
  }

  lemma SetDefinitions(s: Spec)
    ensures Of(AllItems(s), DefinesSet) == FDSetsAnswer(s.fdSets, |s.fdSets|, DefinesSet)
  {
    hide *;
    ShapeSilent(s, DefinesSet);
    DevicesSilent(s, DefinesSet);
    DisksSilent(s.disks, |s.disks|, DefinesSet);
    NICsSilent(|s.nics|, DefinesSet);
    ConsoleSilent(s, DefinesSet);
    MonitorsSilent(s.monitors, |s.monitors|, DefinesSet);
    Parts(s, DefinesSet, [], [], [], [], [], [], FDSetsAnswer(s.fdSets, |s.fdSets|, DefinesSet));
  }

  /** Every descriptor set the machine names by path has a descriptor added to it. */
  lemma EverySetIsAdded(s: Spec, path: string)
    requires Accepts(s) && path in Of(AllItems(s), RefersSet)
    ensures exists id :: path == FDSetPath(id) && Itoa(id) in Of(AllItems(s), DefinesSet)
  {
    hide AllItems, Of, FDSetsAnswer, FDSetPath, Itoa, NamesOk, SizesOk, DescriptorsOk, DiskOk, NICOk, Cmdline.Accepts;
    SetReferencesGiven(s, path);
    var id :| id in SetIds(s.fdSets) && path == FDSetPath(id);
    var f :| f in s.fdSets && f.id == id;
    var k :| 0 <= k < |s.fdSets| && s.fdSets[k] == f;
    SetsGiven(s.fdSets, |s.fdSets|, id);
    SetDefinitions(s);
  }

  // ----- slots

  function DiskSlots(n: nat): seq<nat> { if n == 0 then [] else DiskSlots(n - 1) + [SLOT_DISK_BASE + n - 1] }

  function NICSlots(n: nat): seq<nat> { if n == 0 then [] else NICSlots(n - 1) + [SLOT_NIC_BASE + n - 1] }

  function AllSlots(s: Spec): seq<nat> {
    DeviceSlots(s) + DiskSlots(|s.disks|) + NICSlots(|s.nics|)
  }

  lemma DiskSlotAnswer(d: Disk, i: nat)
    ensures DiskAnswer(d, i, Slots) == [SlotText(SLOT_DISK_BASE + i)]
  {
    NodesSilent(ChainNodes(d, i, 0), Slots);
  }

  lemma {:induction false} DiskSlotsAnswer(ds: seq<Disk>, n: nat)
    requires n <= |ds|
    ensures DisksAnswer(ds, n, Slots) == SlotTexts(DiskSlots(n))
    ensures |DiskSlots(n)| == n && forall i | 0 <= i < n :: DiskSlots(n)[i] == SLOT_DISK_BASE + i
  {
    hide NodeName, SlotText, DiskAnswer;
    if n > 0 {
      DiskSlotsAnswer(ds, n - 1);
      DiskSlotAnswer(ds[n - 1], n - 1);
      SlotTextsConcat(DiskSlots(n - 1), [SLOT_DISK_BASE + n - 1]);
    }
  }

  lemma {:induction false} NICSlotsAnswer(n: nat)
    ensures NICsAnswer(n, Slots) == SlotTexts(NICSlots(n))
    ensures |NICSlots(n)| == n && forall i | 0 <= i < n :: NICSlots(n)[i] == SLOT_NIC_BASE + i
  {
    hide SlotText, NetName;
    if n > 0 {
      NICSlotsAnswer(n - 1);
    }
  }

  lemma AllSlotsAre(s: Spec)
    ensures AllSlots(s) == DeviceSlots(s) + DiskSlots(|s.disks|) + NICSlots(|s.nics|)
  {
  }

  lemma SlotsAnswer(s: Spec)
    ensures Of(AllItems(s), Slots) == SlotTexts(AllSlots(s))
  {
    hide *;
    AllSlotsAre(s);
    ShapeSilent(s, Slots);
    DeviceAnswers(s, Slots);
    DiskSlotsAnswer(s.disks, |s.disks|);
    NICSlotsAnswer(|s.nics|);
    ConsoleSilent(s, Slots);
    MonitorsSilent(s.monitors, |s.monitors|, Slots);
    SetsSilent(s, Slots);
    var a, b, c := DeviceSlots(s), DiskSlots(|s.disks|), NICSlots(|s.nics|);
    Parts(s, Slots, [], SlotTexts(a), SlotTexts(b), SlotTexts(c), [], [], []);
    SlotTextsConcat(a, b);
    SlotTextsConcat(a + b, c);
  }

  lemma DeviceSlotsDistinct(s: Spec)
    ensures Distinct(DeviceSlots(s))
    ensures forall x | x in DeviceSlots(s) :: x in {SLOT_VSOCK, SLOT_RNG, SLOT_BALLOON, SLOT_HOTPLUG, SLOT_MEM}
  {
  }

  lemma ThreeRanges(devices: seq<nat>, disks: seq<nat>, nics: seq<nat>)
    requires Distinct(devices) && Distinct(disks) && Distinct(nics)
    requires forall x | x in devices :: x in {SLOT_VSOCK, SLOT_RNG, SLOT_BALLOON, SLOT_HOTPLUG, SLOT_MEM}
    requires forall x | x in disks :: SLOT_DISK_BASE <= x <= SLOT_DISK_MAX
    requires forall x | x in nics :: SLOT_NIC_BASE <= x <= SLOT_NIC_MAX
    ensures Distinct(devices + disks + nics)
    ensures forall x | x in devices + disks + nics :: SLOT_VSOCK <= x <= SLOT_MEM
  {
    DistinctConcat(devices, disks);
    DistinctConcat(devices + disks, nics);
  }

  lemma SlotNumbers(s: Spec)
    requires SizesOk(s)
    ensures Distinct(AllSlots(s)) && forall x | x in AllSlots(s) :: SLOT_VSOCK <= x <= SLOT_MEM
  {
    hide DeviceSlots, DiskSlots, NICSlots;
    DiskSlotsAnswer(s.disks, |s.disks|);
    NICSlotsAnswer(|s.nics|);
    DeviceSlotsDistinct(s);
    ThreeRanges(DeviceSlots(s), DiskSlots(|s.disks|), NICSlots(|s.nics|));
  }

  /** No two devices of an accepted machine are given one slot, and every slot is between the
      host bridge and the ICH9 block. */
  lemma SlotsAreDistinct(s: Spec)
    requires Accepts(s)
    ensures Distinct(Of(AllItems(s), Slots))
    ensures forall x | x in Of(AllItems(s), Slots) :: exists n: nat | 0x02 <= n <= 0x1e :: x == "0x" + Hex(n)
  {
    hide AllItems, Of, AllSlots, SlotTexts, Hex, SizesOk;
    SlotsAnswer(s);
    assert SizesOk(s);
    SlotNumbers(s);
    SlotTextsDistinct(AllSlots(s));
  }

  lemma SlotTextsDistinct(ns: seq<nat>)
    requires Distinct(ns) && forall n | n in ns :: 0x02 <= n <= 0x1e
    ensures Distinct(SlotTexts(ns))
    ensures forall x | x in SlotTexts(ns) :: exists n: nat | 0x02 <= n <= 0x1e :: x == "0x" + Hex(n)
  {
    hide Hex;
    forall i, j | 0 <= i < j < |ns| ensures SlotText(ns[i]) != SlotText(ns[j]) {
      if SlotText(ns[i]) == SlotText(ns[j]) {
        assert SlotText(ns[i])[2..] == Hex(ns[i]) && SlotText(ns[j])[2..] == Hex(ns[j]);
        HexInjective(ns[i], ns[j]);
      }
    }
    assert forall i | 0 <= i < |ns| :: ns[i] in ns;
  }

  // ----- as QEMU reads it

  /** What QEMU's reading of the machine's command line answers. */
  function Answers(s: Spec, q: Query): seq<string> {
    match ReadArgv(RenderedAll(AllItems(s))) case None => [] case Some(rs) => Collect(rs, q)
  }

  lemma ReadingAnswers(s: Spec, q: Query)
    requires Accepts(s)
    ensures ReadArgv(RenderedAll(AllItems(s))).Some?
    ensures Answers(s, q) == Of(AllItems(s), q)
  {
    hide AllItems, RenderedAll, ReadArgv, Collect, Of, Accepts, ReadAsAll;
    Readback.CommandLineIsReadBack(s);
    ReadingIsAsked(AllItems(s), q);
  }

  /** The closure of the command line, as QEMU reads it off the arguments: every block node,
      network backend and memory backend named is defined exactly once; so is every chardev, but
      for a caller's own console that names one that is not there; every descriptor set named by
      path has a descriptor added to it; and no two devices share a slot. */
  lemma CommandLineIsClosed(s: Spec)
    requires Accepts(s)
    ensures ReadArgv(RenderedAll(AllItems(s))).Some?
    ensures Distinct(Answers(s, DefinesNode)) && AllIn(Answers(s, RefersNode), Answers(s, DefinesNode))
    ensures Distinct(Answers(s, DefinesNetdev)) && AllIn(Answers(s, RefersNetdev), Answers(s, DefinesNetdev))
    ensures Distinct(Answers(s, DefinesObject)) && AllIn(Answers(s, RefersObject), Answers(s, DefinesObject))
    ensures Distinct(Answers(s, DefinesChardev))
    ensures AllIn(Answers(s, RefersChardev), Answers(s, DefinesChardev)) <==> !SerialDangles(s)
    ensures forall path | path in Answers(s, RefersSet) ::
              exists id :: path == "/dev/fdset/" + Itoa(id) && Itoa(id) in Answers(s, DefinesSet)
    ensures Distinct(Answers(s, Slots))
    ensures forall x | x in Answers(s, Slots) :: exists n: nat | 0x02 <= n <= 0x1e :: x == "0x" + Hex(n)
  {
    hide AllItems, Answers, Of, Accepts, Distinct, AllIn, SerialDangles, Itoa, Hex, RenderedAll, ReadArgv;
    forall q ensures Answers(s, q) == Of(AllItems(s), q) {
      ReadingAnswers(s, q);
    }
    ReadingAnswers(s, Slots);
    NamesResolve(s);
    ChardevsResolve(s);
    SlotsAreDistinct(s);
    forall path | path in Answers(s, RefersSet)
      ensures exists id :: path == "/dev/fdset/" + Itoa(id) && Itoa(id) in Answers(s, DefinesSet)
    {
      EverySetIsAdded(s, path);
      var id :| path == FDSetPath(id) && Itoa(id) in Of(AllItems(s), DefinesSet);
      assert Itoa(id) in Answers(s, DefinesSet);
    }
  }

  // ----- machines that are accepted

  /** An accepted machine whose console names a chardev nothing defines. */
  lemma ADanglingConsole() returns (s: Spec)
    ensures Accepts(s) && SerialDangles(s)
    ensures !AllIn(Of(AllItems(s), RefersChardev), Of(AllItems(s), DefinesChardev))
  {
    hide AllItems, Of;
    var line := Cmdline.Cmdline("", false, 0, "", "", false, []);
    Cmdline.BareLineIsAccepted();
    s := Spec("q", "k", "", "f", "", 1, 0, 1, 0, "", "", [], [], 0, 0, 0, 0, [], [], 0, "chardev:zz", line, "");
    assert IsCpuName("") && NamesOk(s) by { hide Cmdline.Accepts; }
    assert SizesOk(s) && FDSetsOk(s.fdSets) && DescriptorsOk(s);
    hide Cmdline.Accepts;
    assert Accepts(s);
    assert s.serial[..8] == CHARDEV;
    ChardevsResolve(s);
  }

  /** And an accepted one with a disk of each kind, a NIC, a vsock, monitors of both kinds, a console
      and a KVM descriptor set, and room to grow: what is proved of accepted machines is proved of
      such. */
  lemma AFullMachine() returns (s: Spec)
    ensures Accepts(s) && !SerialDangles(s)
    ensures |s.disks| == 2 && |s.disks[0].chain| == 2 && s.disks[1].chain == []
    ensures |s.nics| == 1 && s.vsockCID != 0 && s.vsockFD != 0 && s.kvmFDSet != 0 && s.serialFDSet != 0
    ensures |s.monitors| == 2 && s.maxMB > s.sizeMB && s.maxCPUs > s.bootCPUs && s.hotplugDisks > 0
  {
    hide IsMac48, Cmdline.Accepts;
    AMac();
    var line := Cmdline.Cmdline("", false, 0, "", "", false, []);
    Cmdline.BareLineIsAccepted();
    var sets := [FDSet(1, [FD(3, "a,b")]), FDSet(2, [FD(4, ""), FD(5, "")])];
    var chain := [Image(1, "qcow2"), Image(2, "raw")];
    var disks := [Disk("", chain, "", false, "x,y", true, true), Disk("/d,e", [], "raw", true, "", false, false)];
    s := Spec("q", "k", "i", "f", "", 1, 2, 1, 2, "", "", disks, [NIC(6, 7, "52:54:00:12:34:56", 9000)], 1, 3, 8, 1,
              [Monitor("/a,b=c", 0), Monitor("", 9)], sets, 2, "", line, "");
    assert sets[0] in sets && sets[1] in sets;
    assert 1 in SetIds(sets) && 2 in SetIds(sets);
    assert ImageOk(disks[0], 0, SetIds(sets)) && ImageOk(disks[0], 1, SetIds(sets));
    assert DiskOk(disks[0], SetIds(sets)) && DiskOk(disks[1], SetIds(sets));
    assert FDSetOk(sets[0]) && FDSetOk(sets[1]) && FDSetsOk(sets);
    assert MonitorOk(s.monitors[0]) && MonitorOk(s.monitors[1]) && NICOk(s.nics[0]);
    assert NamesOk(s) && SizesOk(s) && DescriptorsOk(s);
  }
}
