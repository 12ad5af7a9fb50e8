/** attach and detach: several QMP commands in order, each waiting for the last. */
module Commands {
  import opened Text
  import Qemu
  import opened Qmp

  const MAX_HOTPLUG_DISKS := 256

  function DiskId(target: nat): string { "hd" + Itoa(target) }

  function DriveId(target: nat): string { "hd" + Itoa(target) + "-drive" }

  predicate TargetOk(target: int) { 0 <= target < MAX_HOTPLUG_DISKS }

  // ----- what the commands come to, for QEMU's state

  /** The devices of s' but one are those of s, save for removals that had been asked for. */
  ghost predicate OthersLater(s: Qemu.State, s': Qemu.State, id: string) {
    && (forall x | x in s'.devices && x != id :: x in s.devices && s'.devices[x] == s.devices[x])
    && (forall x | x in s.devices && x !in s'.devices && x != id :: s.devices[x].leaving)
  }

  /** A disk has arrived at a target: its node and its device, both new. */
  ghost predicate Arrived(s: Qemu.State, s': Qemu.State, target: nat) {
    var id, node := DiskId(target), DriveId(target);
    && node !in s.nodes && s'.nodes == s.nodes + {node}
    && (id in s.devices ==> s.devices[id].leaving)
    && id in s'.devices && s'.devices[id] == Qemu.Device(target, node, false)
    && OthersLater(s, s', id)
  }

  /** A disk has gone from a target: its node and its device, both of which were there. */
  ghost predicate Departed(s: Qemu.State, s': Qemu.State, target: nat) {
    var id, node := DiskId(target), DriveId(target);
    && node in s.nodes && s'.nodes == s.nodes - {node}
    && id in s.devices && id !in s'.devices
    && OthersLater(s, s', id)
  }

  // ----- the connection

  /** The n-th command gets its reply. */
  predicate Ran(turns: seq<Qemu.Turn>, n: nat) { n < |turns| && !turns[n].cut }

  /** What happens at QEMU by itself until the n-th command is handled. */
  function TicksTo(turns: seq<Qemu.Turn>, n: nat): seq<Qemu.Tick>
    requires n < |turns|
  {
    if n == 0 then turns[0].before else TicksTo(turns, n - 1) + turns[n - 1].after + turns[n].before
  }

  /** The commands that were meant, as far as the connection took them. */
  function Upto(plan: seq<Qemu.Command>, turns: seq<Qemu.Turn>): seq<Qemu.Command> {
    if |plan| <= |turns| then plan else plan[..|turns|]
  }

  // ----- connecting

  /** newQMP: the one command before any other. */
  method Connect(conn: QmpConn) returns (ok: bool, ghost broken: bool)
    requires conn.Idle()
    modifies conn, conn.c
    ensures conn.Idle() && (old(conn.Honest()) ==> conn.Honest())
    ensures conn.c.turns == Next(old(conn.c.turns)) && old(conn.c.log) <= conn.c.log
    ensures ok <==> Ran(old(conn.c.turns), 0) && old(conn.c.turns)[0].says.Return?
    ensures broken <==> !Ran(old(conn.c.turns), 0)
    ensures Qemu.Later(old(conn.c.qemu), conn.c.qemu)
    ensures ok ==> conn.c.idle == old(conn.c.idle)
    ensures ok ==> var t := old(conn.c.turns)[0]; Qemu.DevicesAfter(old(conn.c.qemu), t.before + t.after, conn.c.qemu)
    ensures SentIn(conn.c.log[|old(conn.c.log)|..]) == Upto([Qemu.Capabilities], old(conn.c.turns))
    ensures forall e | e in conn.c.log[|old(conn.c.log)|..] && e.Sent? :: e.command == Qemu.Capabilities
    ensures conn.deleted == old(conn.deleted) + DeletedIn(conn.c.log[|old(conn.c.log)|..])
  {
    hide Qemu.Later, Qemu.Sound, Around, Qemu.Truthful, Qemu.NoAnswer, DeletedIn, Qemu.DevicesAfter, InTurn, SentIn,
         Exchange;
    ghost var s0, turns := conn.c.qemu, conn.c.turns;
    var reply, h := conn.Run(Qemu.Capabilities);
    HandledPlainly(s0, Qemu.Capabilities, h, conn.c.qemu);
    if reply.Some? {
      PlainTurn(s0, Qemu.Capabilities, turns[0], h, conn.c.qemu, conn.c.inbox);
    }
    return reply.Some? && reply.value.Return?, reply.None?;
  }

  predicate Plain(c: Qemu.Command) {
    c.Capabilities? || c.Migrate? || c.MigrateIncoming? || c.QueryMigrate? || c.QueryStatus? || c.Cont? || c.Quit?
  }

  lemma PlainTurn(s0: Qemu.State, c: Qemu.Command, turn: Qemu.Turn, h: Handling, s: Qemu.State,
                  inbox: seq<Qemu.Message>)
    requires Plain(c) && h.Handled? && Around(s0, c, h, s) && InTurn(s0, turn, h, s, inbox)
    ensures h.reply == h.says && Qemu.DevicesAfter(s0, turn.before + turn.after, s)
  {
    hide Qemu.Sound, Qemu.Later, Qemu.DevicesAfter, Qemu.HappenAll;
    Qemu.TicksAct(s0, turn.before);
    Qemu.TicksAct(h.before, turn.after);
    Qemu.DevicesChain(s0, turn.before, h.before, turn.after, s);
  }

  lemma SentNext(log0: seq<Entry>, log1: seq<Entry>, log2: seq<Entry>)
    requires log0 <= log1 <= log2
    ensures log2[|log0|..] == log1[|log0|..] + log2[|log1|..]
    ensures SentIn(log2[|log0|..]) == SentIn(log1[|log0|..]) + SentIn(log2[|log1|..])
  {
    assert log2[|log0|..] == log1[|log0|..] + log2[|log1|..];
    SentInConcat(log1[|log0|..], log2[|log1|..]);
  }

  // ----- attach

  datatype Outcome = Done | BadTarget | NoMonitor | First | Second | Waiting | Third

  /** A disk that is there when a device is added takes its id or its target. */
  ghost predicate Blocked(s: Qemu.State, ticks: seq<Qemu.Tick>, target: nat) {
    Qemu.Remains(s, ticks, DiskId(target)) || exists x :: Qemu.Remains(s, ticks, x) && s.devices[x].target == target
  }

  /** How attach ends, from what QEMU holds beforehand and what it will do. */
  ghost function AttachAnswer(s: Qemu.State, turns: seq<Qemu.Turn>, target: nat): Outcome {
    if !Ran(turns, 0) || turns[0].says.Error? then NoMonitor
    else if !Ran(turns, 1) || turns[1].fails || DriveId(target) in s.nodes then First
    else if !Ran(turns, 2) || turns[2].fails || Blocked(s, TicksTo(turns, 2), target) then Second
    else Done
  }

  /** What attach sends until it ends so. */
  function AttachSends(r: Outcome, target: nat, path: string): seq<Qemu.Command> {
    var add, device := Qemu.BlockdevAdd(DriveId(target), path), Qemu.DeviceAdd(DiskId(target), target, DriveId(target));
    match r
    case NoMonitor => [Qemu.Capabilities]
    case First => [Qemu.Capabilities, add]
    case Second => [Qemu.Capabilities, add, device, Qemu.BlockdevDel(DriveId(target))]
    case Done => [Qemu.Capabilities, add, device]
    case _ => []
  }

  /** attach, with the path already made absolute. broken says that the connection failed at some
      command, so that its reply never came; kept, that QEMU refused the device and then refused to
      take the node back, which attach does not look at. */
  method Attach(m: Monitor, target: int, path: string) returns (r: Outcome, ghost broken: bool, ghost kept: bool)
    requires Qemu.Sound(m.qemu) && m.inbox == []
    modifies m
    ensures r == if TargetOk(target) then AttachAnswer(old(m.qemu), old(m.turns), target) else BadTarget
    ensures r == BadTarget ==> m.qemu == old(m.qemu) && m.log == old(m.log)
    ensures old(m.log) <= m.log
    ensures TargetOk(target) ==>
              SentIn(m.log[|old(m.log)|..]) == Upto(AttachSends(r, target, path), old(m.turns))
    ensures broken <==> || (r == NoMonitor && !Ran(old(m.turns), 0)) || (r == First && !Ran(old(m.turns), 1))
                        || (r == Second && !(Ran(old(m.turns), 2) && Ran(old(m.turns), 3)))
    ensures kept <==> r == Second && Ran(old(m.turns), 2) && Ran(old(m.turns), 3) && old(m.turns)[3].fails
    ensures r == Done ==> Arrived(old(m.qemu), m.qemu, target)
    ensures r != Done && !broken ==> (Qemu.Later(old(m.qemu), m.qemu) <==> !kept)
    ensures kept ==> Opened(old(m.qemu), m.qemu, DriveId(target))
    ensures TargetOk(target) ==> OthersLater(old(m.qemu), m.qemu, DiskId(target))
    ensures TargetOk(target) ==> old(m.qemu).nodes <= m.qemu.nodes <= old(m.qemu).nodes + {DriveId(target)}
    ensures Qemu.Sound(m.qemu)
  {
    hide Itoa, Qemu.Later, Qemu.Sound, Arrived, DriveId, DiskId, OthersLater, Opened, DeletedIn, SentIn,
         Qemu.DevicesAfter, Blocked, TicksTo, Qemu.Truthful;
    broken, kept := false, false;
    LaterItself(m.qemu);
    if !TargetOk(target) {
      return BadTarget, broken, kept;
    }
    ghost var s0, log0, turns := m.qemu, m.log, m.turns;
    var conn := new QmpConn(m);
    var ok;
    ok, broken := Connect(conn);
    ghost var s1, log1 := m.qemu, m.log;
    LaterIsOthers(s0, s1, DiskId(target));
    SameNodes(s0, s1);
    if !ok {
      return NoMonitor, broken, kept;
    }
    r, broken, kept := AddDisk(conn, target, path, s0, turns[0]);
    SentNext(log0, log1, m.log);
    if Ran(turns, 1) && Ran(turns, 2) {
      ThirdTicks(turns);
    }
  }

  lemma ThirdTicks(turns: seq<Qemu.Turn>)
    requires 2 < |turns|
    ensures TicksTo(turns, 2) == turns[0].before + turns[0].after + turns[1].before + turns[1].after + turns[2].before
  {
    assert TicksTo(turns, 1) == turns[0].before + turns[0].after + turns[1].before;
  }

  /** The node of the disk and then its device, on a connection QEMU has answered once. */
  method AddDisk(conn: QmpConn, target: nat, path: string, ghost s0: Qemu.State, ghost first: Qemu.Turn)
    returns (r: Outcome, ghost broken: bool, ghost kept: bool)
    requires conn.Idle() && Qemu.Sound(s0) && Qemu.Later(s0, conn.c.qemu)
    requires Qemu.DevicesAfter(s0, first.before + first.after, conn.c.qemu)
    modifies conn, conn.c
    ensures conn.Idle() && old(conn.c.log) <= conn.c.log
    ensures var turns := old(conn.c.turns);
            r == if !Ran(turns, 0) || turns[0].fails || DriveId(target) in s0.nodes then First
                 else if !Ran(turns, 1) || turns[1].fails then Second
                 else if Blocked(s0, first.before + first.after + turns[0].before + turns[0].after + turns[1].before,
                                 target) then Second
                 else Done
    ensures SentIn(conn.c.log[|old(conn.c.log)|..]) ==
            Upto(AttachSends(r, target, path)[1..], old(conn.c.turns))
    ensures broken <==> || (r == First && !Ran(old(conn.c.turns), 0))
                        || (r == Second && !(Ran(old(conn.c.turns), 1) && Ran(old(conn.c.turns), 2)))
    ensures kept <==> && r == Second && Ran(old(conn.c.turns), 1) && Ran(old(conn.c.turns), 2)
                      && old(conn.c.turns)[2].fails
    ensures r == Done ==> Arrived(s0, conn.c.qemu, target)
    ensures r != Done && !broken ==> (Qemu.Later(s0, conn.c.qemu) <==> !kept)
    ensures kept ==> Opened(s0, conn.c.qemu, DriveId(target))
    ensures OthersLater(s0, conn.c.qemu, DiskId(target))
    ensures s0.nodes <= conn.c.qemu.nodes <= s0.nodes + {DriveId(target)}
  {
    hide Itoa, Qemu.Later, Qemu.Sound, Arrived, Around, DriveId, DiskId, OthersLater, Opened, DeletedIn, SentIn,
         Qemu.DevicesAfter, Blocked, InTurn, Exchange, Qemu.NoAnswer, Qemu.Truthful;
    broken, kept := false, false;
    ghost var s1, log1, turns := conn.c.qemu, conn.c.log, conn.c.turns;
    var id, node := DiskId(target), DriveId(target);
    var reply, h := conn.Run(Qemu.BlockdevAdd(node, path));
    ghost var s2, log2 := conn.c.qemu, conn.c.log;
    NodeAdded(s0, s1, id, node, path, h, s2);
    if reply.Some? {
      NodeTurn(s0, s1, node, path, turns[0], h, s2, conn.c.inbox);
    }
    if reply.None? || reply.value.Error? {
      broken := reply.None?;
      return First, broken, kept;
    }
    ghost var past := first.before + first.after;
    Qemu.DevicesChain(s0, past, s1, turns[0].before + turns[0].after, s2);
    assert past + (turns[0].before + turns[0].after) == past + turns[0].before + turns[0].after;
    r, broken, kept := AddDevice(conn, target, s0, past + turns[0].before + turns[0].after);
    SentNext(log1, log2, conn.c.log);
  }

  lemma NodeTurn(s0: Qemu.State, s1: Qemu.State, node: string, path: string, turn: Qemu.Turn, h: Handling,
                 s: Qemu.State, inbox: seq<Qemu.Message>)
    requires Qemu.Later(s0, s1) && h.Handled? && Around(s1, Qemu.BlockdevAdd(node, path), h, s)
    requires InTurn(s1, turn, h, s, inbox)
    ensures h.reply.Error? <==> h.fails || node in s0.nodes
    ensures Qemu.DevicesAfter(s1, turn.before + turn.after, s)
  {
    hide Qemu.Sound, Qemu.DevicesAfter, Qemu.HappenAll;
    Qemu.TicksAct(s1, turn.before);
    Qemu.SameDevices(h.before, h.after);
    Qemu.TicksAct(h.after, turn.after);
    Qemu.DevicesChain(s1, turn.before, h.before, [], h.after);
    assert turn.before + [] == turn.before;
    Qemu.DevicesChain(s1, turn.before, h.after, turn.after, s);
  }

  /** The second half of attach: the device on the node just opened, or else the node taken back. */
  method AddDevice(conn: QmpConn, target: nat, ghost s0: Qemu.State, ghost past: seq<Qemu.Tick>)
    returns (r: Outcome, ghost broken: bool, ghost kept: bool)
    requires conn.Idle() && Qemu.Sound(s0) && Opened(s0, conn.c.qemu, DriveId(target))
    requires Qemu.DevicesAfter(s0, past, conn.c.qemu)
    modifies conn, conn.c
    ensures conn.Idle() && old(conn.c.log) <= conn.c.log
    ensures var turns := old(conn.c.turns);
            r == if !Ran(turns, 0) || turns[0].fails || Blocked(s0, past + turns[0].before, target) then Second
                 else Done
    ensures SentIn(conn.c.log[|old(conn.c.log)|..]) ==
            Upto([Qemu.DeviceAdd(DiskId(target), target, DriveId(target))] +
                 (if r == Second then [Qemu.BlockdevDel(DriveId(target))] else []), old(conn.c.turns))
    ensures broken <==> r == Second && !(Ran(old(conn.c.turns), 0) && Ran(old(conn.c.turns), 1))
    ensures kept <==> && r == Second && Ran(old(conn.c.turns), 0) && Ran(old(conn.c.turns), 1)
                      && old(conn.c.turns)[1].fails
    ensures r == Done ==> Arrived(s0, conn.c.qemu, target)
    ensures r == Second && !broken ==> (Qemu.Later(s0, conn.c.qemu) <==> !kept)
    ensures kept ==> Opened(s0, conn.c.qemu, DriveId(target))
    ensures s0.nodes <= conn.c.qemu.nodes <= s0.nodes + {DriveId(target)}
    ensures OthersLater(s0, conn.c.qemu, DiskId(target))
  {
    hide Itoa, Qemu.Later, Qemu.Sound, Arrived, Around, DriveId, DiskId, OthersLater, Opened, Qemu.NoAnswer, DeletedIn,
         SentIn, Qemu.DevicesAfter, Blocked, InTurn, Exchange, Qemu.Truthful;
    broken, kept := false, false;
    var id, node := DiskId(target), DriveId(target);
    ghost var s2, log2, turns := conn.c.qemu, conn.c.log, conn.c.turns;
    var reply, h := conn.Run(Qemu.DeviceAdd(id, target, node));
    ghost var s3, log3 := conn.c.qemu, conn.c.log;
    DeviceAdded(s0, s2, id, target, node, h, s3);
    if reply.Some? {
      DeviceTurn(s0, s2, past, target, turns[0], h, s3, conn.c.inbox);
    }
    if reply.None? || reply.value.Error? {
      broken := reply.None?;
      var undone, u := conn.Run(Qemu.BlockdevDel(node));
      SentNext(log2, log3, conn.c.log);
      broken := broken || undone.None?;
      kept := !broken && undone.value.Error?;
      NodeDropped(s0, s3, id, node, u, conn.c.qemu);
      if kept {
        OpenedIsNotLater(s0, conn.c.qemu, node);
      }
      return Second, broken, kept;
    }
    DiskArrived(s0, s2, s3, target, h);
    return Done, broken, kept;
  }

  /** When QEMU takes a device on a node just opened. */
  lemma DeviceTurn(s0: Qemu.State, s2: Qemu.State, past: seq<Qemu.Tick>, target: nat, turn: Qemu.Turn, h: Handling,
                   s: Qemu.State, inbox: seq<Qemu.Message>)
    requires Qemu.Sound(s0) && Opened(s0, s2, DriveId(target)) && Qemu.DevicesAfter(s0, past, s2)
    requires h.Handled? && Around(s2, Qemu.DeviceAdd(DiskId(target), target, DriveId(target)), h, s)
    requires InTurn(s2, turn, h, s, inbox)
    ensures h.reply.Error? <==> h.fails || Blocked(s0, past + turn.before, target)
  {
    Qemu.TicksAct(s2, turn.before);
    Qemu.DevicesChain(s0, past, s2, turn.before, h.before);
    assert DiskId(target)[0] == 'h';
    hide DriveId, DiskId, Qemu.HappenAll, Qemu.Remains;
    BlockedIsTaken(s0, past + turn.before, h.before, target);
  }

  lemma BlockedIsTaken(s0: Qemu.State, ticks: seq<Qemu.Tick>, s: Qemu.State, target: nat)
    requires Qemu.DevicesAfter(s0, ticks, s)
    ensures Blocked(s0, ticks, target) <==> DiskId(target) in s.devices || Qemu.TargetTaken(s, target)
  {
    hide DiskId;
    if x :| Qemu.Remains(s0, ticks, x) && s0.devices[x].target == target {
      assert x in s.devices && s.devices[x].target == target;
    }
    if Qemu.TargetTaken(s, target) {
      var x :| x in s.devices && s.devices[x].target == target;
      assert Qemu.Remains(s0, ticks, x);
    }
  }

  /** The node is there and nothing else but removals has happened, and no device sits on it. */
  ghost predicate Opened(s0: Qemu.State, s: Qemu.State, node: string) {
    && node !in s0.nodes && s.nodes == s0.nodes + {node}
    && (forall x | x in s.devices :: x in s0.devices && s.devices[x] == s0.devices[x])
    && (forall x | x in s0.devices && x !in s.devices :: s0.devices[x].leaving)
  }

  lemma HandledPlainly(s0: Qemu.State, c: Qemu.Command, h: Handling, s: Qemu.State)
    requires Plain(c)
    requires h.Unsent? ==> s == s0
    requires h.Handled? ==> Around(s0, c, h, s)
    ensures Qemu.Later(s0, s)
  {
    if h.Handled? {
      Qemu.LaterChains(s0, h.before, s);
    } else {
      LaterItself(s0);
    }
  }

  lemma LaterIsOthers(s0: Qemu.State, s: Qemu.State, id: string)
    requires Qemu.Later(s0, s)
    ensures OthersLater(s0, s, id)
  {
  }

  lemma OpenedIsNotLater(s0: Qemu.State, s: Qemu.State, node: string)
    requires Opened(s0, s, node)
    ensures !Qemu.Later(s0, s)
  {
    assert node in s.nodes;
  }

  lemma NodeAdded(s0: Qemu.State, s1: Qemu.State, id: string, node: string, path: string, h: Handling, s: Qemu.State)
    requires Qemu.Later(s0, s1)
    requires h.Unsent? ==> s == s1
    requires h.Handled? ==> Around(s1, Qemu.BlockdevAdd(node, path), h, s)
    ensures h.Handled? && h.reply.Return? ==> Opened(s0, s, node)
    ensures h.Handled? && h.reply.Error? ==> Qemu.Later(s0, s)
    ensures s0.nodes <= s.nodes <= s0.nodes + {node} && OthersLater(s0, s, id)
  {
  }

  lemma DeviceAdded(s0: Qemu.State, s2: Qemu.State, id: string, target: nat, node: string, h: Handling, s: Qemu.State)
    requires Qemu.Sound(s0) && Opened(s0, s2, node)
    requires h.Unsent? ==> s == s2
    requires h.Handled? ==> Around(s2, Qemu.DeviceAdd(id, target, node), h, s)
    ensures h.Handled? && h.reply.Error? ==> Opened(s0, s, node)
    ensures s.nodes == s0.nodes + {node} && node !in s0.nodes && OthersLater(s0, s, id)
  {
  }

  /** A rollback of a node no device came to sit on takes away just that node, unless QEMU refuses
      it for reasons of its own. */
  lemma NodeDropped(s0: Qemu.State, s3: Qemu.State, id: string, node: string, h: Handling, s: Qemu.State)
    requires Qemu.Sound(s0) && node !in s0.nodes && s3.nodes == s0.nodes + {node} && OthersLater(s0, s3, id)
    requires h.Unsent? ==> s == s3
    requires h.Handled? ==> Around(s3, Qemu.BlockdevDel(node), h, s)
    ensures h.Handled? && Opened(s0, s3, node) ==> (h.reply.Error? <==> h.fails)
    ensures h.Handled? && Opened(s0, s3, node) ==> if h.fails then Opened(s0, s, node) else Qemu.Later(s0, s)
    ensures s0.nodes <= s.nodes <= s0.nodes + {node} && OthersLater(s0, s, id)
  {
  }

  lemma DiskArrived(s0: Qemu.State, s2: Qemu.State, s: Qemu.State, target: nat, h: Handling)
    requires Opened(s0, s2, DriveId(target)) && h.Handled? && h.reply.Return?
    requires Around(s2, Qemu.DeviceAdd(DiskId(target), target, DriveId(target)), h, s)
    ensures Arrived(s0, s, target)
  {
    hide DriveId, DiskId;
  }

  /** A turn in which QEMU does nothing by itself, and refuses the command or does not. */
  function Says(fails: bool): Qemu.Turn { Qemu.Turn([], fails, Qemu.Return(""), [], false) }

  /** A script by which attach leaves its node behind: QEMU refuses the device and then the rollback.
      By Attach's contract the node is then kept, and the state is not what it was. */
  lemma ARefusedRollback(target: nat)
    ensures var s, turns := Qemu.State({}, map[]), [Says(false), Says(false), Says(true), Says(true)];
            && Qemu.Sound(s) && AttachAnswer(s, turns, target) == Second
            && Ran(turns, 2) && Ran(turns, 3) && turns[3].fails
  {
    hide DriveId, DiskId, TicksTo, Blocked;
  }

  // ----- detach

  /** Every blockdev-del among some entries comes after the report that a device has gone. */
  ghost predicate ClosedAfter(log: seq<Entry>, id: string) {
    forall k | 0 <= k < |log| && log[k].Sent? && log[k].command.BlockdevDel? ::
      exists j | 0 <= j < k :: log[j] == Got(Qemu.Deleted(id))
  }

  predicate NeverCloses(log: seq<Entry>) {
    forall e | e in log && e.Sent? :: !e.command.BlockdevDel?
  }

  /** The ticks there are, up to the one that finishes a removal. */
  function UpToFinish(ticks: seq<Qemu.Tick>, id: string): seq<Qemu.Tick> {
    if ticks == [] then []
    else if ticks[0] == Qemu.Finish(id) then [ticks[0]]
    else [ticks[0]] + UpToFinish(ticks[1..], id)
  }

  /** What happens at QEMU while detach waits: nothing more, if the device went before the reply was
      read. */
  function Waited(after: seq<Qemu.Tick>, idle: seq<Qemu.Tick>, id: string): seq<Qemu.Tick> {
    if Qemu.Finish(id) in after then [] else UpToFinish(idle, id)
  }

  /** Another device still sits on a node. */
  ghost predicate Occupied(s: Qemu.State, ticks: seq<Qemu.Tick>, id: string, node: string) {
    exists x :: x != id && Qemu.Remains(s, ticks, x) && s.devices[x].node == node
  }

  /** What happens at QEMU by itself until it is told to close the node of a device that has gone. */
  function TicksToClose(turns: seq<Qemu.Turn>, idle: seq<Qemu.Tick>, id: string): seq<Qemu.Tick>
    requires |turns| > 2
  {
    TicksTo(turns, 1) + turns[1].after + Waited(turns[1].after, idle, id) + turns[2].before
  }

  /** How detach ends, from what QEMU holds beforehand and what it will do. */
  ghost function DetachAnswer(s: Qemu.State, turns: seq<Qemu.Turn>, idle: seq<Qemu.Tick>, target: nat): Outcome {
    var id := DiskId(target);
    if !Ran(turns, 0) || turns[0].says.Error? then NoMonitor
    else if !Ran(turns, 1) || turns[1].fails || id !in s.devices || s.devices[id].leaving then First
    else if Qemu.Finish(id) !in turns[1].after + idle then Waiting
    else if !Ran(turns, 2) || turns[2].fails || DriveId(target) !in s.nodes then Third
    else if Occupied(s, TicksToClose(turns, idle, id), id, DriveId(target)) then Third
    else Done
  }

  /** What detach sends until it ends so. */
  function DetachSends(r: Outcome, target: nat): seq<Qemu.Command> {
    match r
    case NoMonitor => [Qemu.Capabilities]
    case First => [Qemu.Capabilities, Qemu.DeviceDel(DiskId(target))]
    case Waiting => [Qemu.Capabilities, Qemu.DeviceDel(DiskId(target))]
    case Third => [Qemu.Capabilities, Qemu.DeviceDel(DiskId(target)), Qemu.BlockdevDel(DriveId(target))]
    case Done => [Qemu.Capabilities, Qemu.DeviceDel(DiskId(target)), Qemu.BlockdevDel(DriveId(target))]
    case _ => []
  }

  /** The first half of detach: asking the device to leave. asked is QEMU's state when it was. */
  method Ask(conn: QmpConn, target: nat) returns (r: Outcome, ghost broken: bool, ghost asked: Qemu.State)
    requires conn.Idle() && conn.Honest() && conn.deleted == []
    modifies conn, conn.c
    ensures conn.Idle() && conn.Honest()
    ensures var s, turns := old(conn.c.qemu), old(conn.c.turns);
            r == if !Ran(turns, 0) || turns[0].says.Error? then NoMonitor
                 else if !Ran(turns, 1) || turns[1].fails || DiskId(target) !in s.devices ||
                         s.devices[DiskId(target)].leaving then First
                 else Done
    ensures broken <==> (r == NoMonitor && !Ran(old(conn.c.turns), 0)) || (r == First && !Ran(old(conn.c.turns), 1))
    ensures old(conn.c.log) <= conn.c.log && NeverCloses(conn.c.log[|old(conn.c.log)|..])
    ensures SentIn(conn.c.log[|old(conn.c.log)|..]) ==
            Upto(DetachSends(if r == Done then First else r, target), old(conn.c.turns))
    ensures conn.c.qemu.nodes == old(conn.c.qemu).nodes
    ensures r == Done ==> Asked(old(conn.c.qemu), conn.c.qemu, DiskId(target))
    ensures r == Done ==>
              && DiskId(target) in asked.devices && asked.devices[DiskId(target)].leaving
              && (conn.c.qemu, conn.c.inbox) == Qemu.HappenAll(asked, old(conn.c.turns)[1].after)
              && conn.c.idle == old(conn.c.idle) && conn.c.turns == old(conn.c.turns)[2..]
              && OthersAfter(old(conn.c.qemu), TicksTo(old(conn.c.turns), 1), asked, DiskId(target))
    ensures r != Done && !broken ==> Qemu.Later(old(conn.c.qemu), conn.c.qemu)
    ensures OthersLater(old(conn.c.qemu), conn.c.qemu, DiskId(target))
    ensures forall id | id in conn.deleted :: Got(Qemu.Deleted(id)) in conn.c.log[|old(conn.c.log)|..]
  {
    hide Itoa, Qemu.Later, Qemu.Sound, Around, DriveId, DiskId, Qemu.Truthful, DeletedIn, OthersLater, Asked, SentIn,
         Qemu.DevicesAfter, Exchange, Qemu.HappenAll, Qemu.NoAnswer, OthersAfter;
    var id := DiskId(target);
    ghost var s0, log0, turns := conn.c.qemu, conn.c.log, conn.c.turns;
    asked := s0;
    var ok;
    ok, broken := Connect(conn);
    ghost var s1, log1 := conn.c.qemu, conn.c.log;
    SameNodes(s0, s1);
    LaterIsOthers(s0, s1, id);
    DeletedWereGot(log1[|log0|..]);
    if !ok {
      return NoMonitor, broken, asked;
    }
    var reply, h := conn.Run(Qemu.DeviceDel(id));
    AskedToLeave(s0, s1, id, h, conn.c.qemu);
    SentNext(log0, log1, conn.c.log);
    DeletedWereGot(conn.c.log[|log1|..]);
    broken := reply.None?;
    if reply.Some? {
      LeaveTurn(s0, turns[0].before + turns[0].after, s1, id, turns[1], h, conn.c.qemu, conn.c.inbox);
    }
    if reply.None? || reply.value.Error? {
      return First, broken, asked;
    }
    asked := h.after;
    return Done, broken, asked;
  }

  /** When QEMU takes a request to leave: exactly when the device is there and was not asked before. */
  lemma LeaveTurn(s0: Qemu.State, past: seq<Qemu.Tick>, s1: Qemu.State, id: string, turn: Qemu.Turn, h: Handling,
                  s: Qemu.State, inbox: seq<Qemu.Message>)
    requires Qemu.DevicesAfter(s0, past, s1) && h.Handled? && Around(s1, Qemu.DeviceDel(id), h, s)
    requires InTurn(s1, turn, h, s, inbox)
    ensures h.reply.Error? <==> h.fails || id !in s0.devices || s0.devices[id].leaving
    ensures h.reply.Return? ==> id in h.after.devices && h.after.devices[id].leaving
    ensures OthersAfter(s0, past + turn.before, h.after, id)
  {
    Qemu.TicksAct(s1, turn.before);
    Qemu.DevicesChain(s0, past, s1, turn.before, h.before);
    hide Qemu.HappenAll, Qemu.Sound, Qemu.Later;
    assert id in h.before.devices <==> Qemu.Remains(s1, turn.before, id);
    assert id in s1.devices <==> Qemu.Remains(s0, past, id);
  }

  /** detach. Whatever QEMU says and when, the disk's node is never closed before QEMU has reported
      the device on it gone. */
  method Detach(m: Monitor, target: int) returns (r: Outcome, ghost broken: bool)
    requires Qemu.Sound(m.qemu) && m.inbox == []
    modifies m
    ensures r == if TargetOk(target) then DetachAnswer(old(m.qemu), old(m.turns), old(m.idle), target) else BadTarget
    ensures r == BadTarget ==> m.qemu == old(m.qemu) && m.log == old(m.log)
    ensures old(m.log) <= m.log
    ensures TargetOk(target) ==> SentIn(m.log[|old(m.log)|..]) == Upto(DetachSends(r, target), old(m.turns))
    ensures TargetOk(target) ==> ClosedAfter(m.log[|old(m.log)|..], DiskId(target))
    ensures broken <==> || (r == NoMonitor && !Ran(old(m.turns), 0)) || (r == First && !Ran(old(m.turns), 1))
                        || (r == Third && !Ran(old(m.turns), 2))
    ensures r == Done ==> Departed(old(m.qemu), m.qemu, target)
    ensures r != Done && !broken ==> m.qemu.nodes == old(m.qemu).nodes
    ensures (r == NoMonitor || r == First) && !broken ==> Qemu.Later(old(m.qemu), m.qemu)
    ensures r == Waiting ==> DiskId(target) in m.qemu.devices && m.qemu.devices[DiskId(target)].leaving
    ensures r == Third ==> DiskId(target) !in m.qemu.devices
    ensures TargetOk(target) ==> OthersLater(old(m.qemu), m.qemu, DiskId(target))
  {
    hide Itoa, Qemu.Later, Qemu.Sound, Departed, Around, DriveId, DiskId, ClosedAfter, Qemu.Truthful, Asked, DeletedIn,
         OthersLater, Occupied, SentIn, Exchange, InTurn, Streamed, Qemu.HappenAll, Qemu.NoAnswer, OthersAfter,
         Qemu.DevicesAfter, TicksTo, Waited, JustGone;
    broken := false;
    ghost var s0, log0, turns, idle := m.qemu, m.log, m.turns, m.idle;
    if !TargetOk(target) {
      return BadTarget, broken;
    }
    NoneTruthful(s0);
    var conn := new QmpConn(m);
    var id := DiskId(target);
    ghost var asked;
    r, broken, asked := Ask(conn, target);
    ghost var s2, log2 := m.qemu, m.log;
    NoneClosed(log2[|log0|..], id);
    if r != Done {
      return r, broken;
    }
    ghost var inbox := m.inbox;
    ToldIsGone(inbox, s2);
    HasId(target);
    var gone, more := conn.WaitDeleted(id);
    ghost var s3, log3 := m.qemu, m.log;
    WaitIsExact(asked, turns[1].after, id, s2, inbox, idle, more, gone, conn.deleted, s3, m.inbox, m.idle);
    SameNodes(s2, s3);
    OthersChain(s0, s2, s3, id);
    assert log3[|log2|..] == more;
    NoneClosedMore(log2[|log0|..], more, id);
    SentNext(log0, log2, log3);
    ReadsSendNothing(more);
    if !gone {
      return Waiting, broken;
    }
    WaitedIs(asked, turns[1].after, id, s2, inbox, idle, more, conn.deleted, s3, m.inbox, m.idle);
    ghost var past := TicksTo(turns, 1);
    Qemu.TicksAct(asked, turns[1].after);
    OthersGoOn(s0, past, asked, turns[1].after, s2, id);
    OthersGoOn(s0, past + turns[1].after, s2, Waited(turns[1].after, idle, id), s3, id);
    r, broken := Close(conn, target, s0, s2, s3, past + turns[1].after + Waited(turns[1].after, idle, id));
    SentNext(log0, log3, m.log);
    ClosedLast(log3[|log0|..], m.log[|log3|..], id);
  }

  /** The end of detach, once the device is gone. */
  method Close(conn: QmpConn, target: nat, ghost s0: Qemu.State, ghost s2: Qemu.State, ghost s3: Qemu.State,
               ghost past: seq<Qemu.Tick>)
    returns (r: Outcome, ghost broken: bool)
    requires conn.Idle() && conn.c.qemu == s3
    requires Asked(s0, s2, DiskId(target)) && Qemu.Later(s2, s3) && DiskId(target) !in s3.devices
    requires OthersAfter(s0, past, s3, DiskId(target))
    modifies conn, conn.c
    ensures old(conn.c.log) <= conn.c.log
    ensures var turns := old(conn.c.turns);
            r == if !Ran(turns, 0) || turns[0].fails || DriveId(target) !in s0.nodes then Third
                 else if Occupied(s0, past + turns[0].before, DiskId(target), DriveId(target)) then Third
                 else Done
    ensures broken <==> !Ran(old(conn.c.turns), 0)
    ensures SentIn(conn.c.log[|old(conn.c.log)|..]) ==
            Upto([Qemu.BlockdevDel(DriveId(target))], old(conn.c.turns))
    ensures r == Done ==> Departed(s0, conn.c.qemu, target)
    ensures r == Third && !broken ==> conn.c.qemu.nodes == s0.nodes
    ensures DiskId(target) !in conn.c.qemu.devices && OthersLater(s0, conn.c.qemu, DiskId(target))
  {
    hide Itoa, Qemu.Later, Qemu.Sound, Departed, Around, DriveId, DiskId, Asked, DeletedIn, Qemu.Truthful,
         Qemu.NoAnswer, OthersLater, Occupied, SentIn, Exchange, InTurn, OthersAfter;
    ghost var turns := conn.c.turns;
    var reply, h := conn.Run(Qemu.BlockdevDel(DriveId(target)));
    if reply.Some? {
      CloseTurn(s0, s2, s3, past, target, turns[0], h, conn.c.qemu, conn.c.inbox);
    }
    DiskDeparted(s0, s2, s3, target, h, conn.c.qemu, reply);
    return if reply.Some? && reply.value.Return? then Done else Third, reply.None?;
  }

  /** When QEMU closes the node of a device that has gone: exactly when the node is there and no other
      device sits on it by then. */
  lemma CloseTurn(s0: Qemu.State, s2: Qemu.State, s3: Qemu.State, past: seq<Qemu.Tick>, target: nat, turn: Qemu.Turn,
                  h: Handling, s: Qemu.State, inbox: seq<Qemu.Message>)
    requires Asked(s0, s2, DiskId(target)) && Qemu.Later(s2, s3) && DiskId(target) !in s3.devices
    requires OthersAfter(s0, past, s3, DiskId(target))
    requires h.Handled? && Around(s3, Qemu.BlockdevDel(DriveId(target)), h, s) && InTurn(s3, turn, h, s, inbox)
    ensures h.reply.Error? <==>
            || h.fails || DriveId(target) !in s0.nodes
            || Occupied(s0, past + turn.before, DiskId(target), DriveId(target))
  {
    hide DriveId, DiskId, Qemu.HappenAll, OthersAfter, Occupied, Qemu.Sound;
    Qemu.TicksAct(s3, turn.before);
    OthersGoOn(s0, past, s3, turn.before, h.before, DiskId(target));
    InUseIsOccupied(s0, past + turn.before, h.before, DiskId(target), DriveId(target));
  }

  lemma InUseIsOccupied(s0: Qemu.State, ticks: seq<Qemu.Tick>, s: Qemu.State, id: string, node: string)
    requires OthersAfter(s0, ticks, s, id) && id !in s.devices
    ensures Occupied(s0, ticks, id, node) <==> Qemu.InUse(s, node)
  {
    hide Qemu.Remains;
    if Occupied(s0, ticks, id, node) {
      var x :| x != id && Qemu.Remains(s0, ticks, x) && s0.devices[x].node == node;
      assert x in s.devices && s.devices[x].node == node;
    }
    if Qemu.InUse(s, node) {
      var x :| x in s.devices && s.devices[x].node == node;
      assert x != id && Qemu.Remains(s0, ticks, x);
    }
  }

  /** Of the devices but one, those of s are those of s0 that remain after some ticks. */
  ghost predicate OthersAfter(s0: Qemu.State, ticks: seq<Qemu.Tick>, s: Qemu.State, id: string) {
    && (forall x | x != id :: x in s.devices <==> Qemu.Remains(s0, ticks, x))
    && (forall x | x in s.devices && x != id :: x in s0.devices && s.devices[x] == s0.devices[x])
  }

  lemma OthersGoOn(s0: Qemu.State, past: seq<Qemu.Tick>, s: Qemu.State, more: seq<Qemu.Tick>, s': Qemu.State,
                   id: string)
    requires OthersAfter(s0, past, s, id) && Qemu.DevicesAfter(s, more, s')
    ensures OthersAfter(s0, past + more, s', id)
  {
    forall x | x != id ensures x in s'.devices <==> Qemu.Remains(s0, past + more, x) {
      assert Qemu.Finish(x) in past + more <==> Qemu.Finish(x) in past || Qemu.Finish(x) in more;
      assert x in s.devices <==> Qemu.Remains(s0, past, x);
    }
  }

  lemma ToldIsGone(inbox: seq<Qemu.Message>, s: Qemu.State)
    requires Qemu.Truthful(inbox, s)
    ensures forall id | Qemu.Deleted(id) in inbox :: id !in s.devices
  {
  }

  lemma {:induction false} FinishedAt(ticks: seq<Qemu.Tick>, n: nat, id: string)
    requires n < |ticks| && ticks[n] == Qemu.Finish(id) && Qemu.Finish(id) !in ticks[..n]
    ensures UpToFinish(ticks, id) == ticks[..n + 1]
  {
    if n > 0 {
      assert ticks[0] in ticks[..n];
      assert ticks[..n] == [ticks[0]] + ticks[1..][..n - 1];
      assert ticks[..n + 1] == [ticks[0]] + ticks[1..][..n];
      FinishedAt(ticks[1..], n - 1, id);
    }
  }

  /** And when it ends in time, QEMU has done just what it did until the removal was finished. */
  lemma WaitedIs(asked: Qemu.State, after: seq<Qemu.Tick>, id: string, s2: Qemu.State, inbox: seq<Qemu.Message>,
                 idle: seq<Qemu.Tick>, more: seq<Entry>, deleted: seq<string>, s3: Qemu.State,
                 inbox': seq<Qemu.Message>, idle': seq<Qemu.Tick>)
    requires id in asked.devices && asked.devices[id].leaving && (s2, inbox) == Qemu.HappenAll(asked, after)
    requires Streamed(s2, inbox, idle, GotIn(more), s3, inbox', idle')
    requires id in deleted || Qemu.Deleted(id) in inbox ==> id !in s2.devices && idle' == idle
    requires id !in deleted && Qemu.Deleted(id) !in inbox ==> JustGone(s2, idle, idle', id)
    ensures Qemu.DevicesAfter(s2, Waited(after, idle, id), s3)
  {
    hide Qemu.HappenAll, Qemu.DevicesAfter;
    PassedIs(s2, inbox, idle, GotIn(more), s3, inbox', idle');
    var n := |idle| - |idle'|;
    Qemu.TicksAct(s2, idle[..n]);
    if Qemu.Finish(id) in after {
      Qemu.GoneIsTold(asked, after, id);
      assert idle[..n] == [];
    } else {
      StillLeaving(asked, after, id, s2);
      var before := idle[..n - 1];
      Qemu.TicksAct(s2, before);
      StillThere(s2, before, id, Qemu.HappenAll(s2, before).0);
      FinishedAt(idle, n - 1, id);
    }
  }

  lemma HasId(target: nat)
    ensures DiskId(target) != ""
  {
    assert DiskId(target)[0] == 'h';
  }

  lemma StillLeaving(asked: Qemu.State, after: seq<Qemu.Tick>, id: string, s: Qemu.State)
    requires id in asked.devices && asked.devices[id].leaving && s == Qemu.HappenAll(asked, after).0
    requires Qemu.Finish(id) !in after
    ensures id in s.devices && s.devices[id].leaving
  {
    Qemu.TicksAct(asked, after);
    assert Qemu.Remains(asked, after, id);
  }

  lemma StillThere(s: Qemu.State, ticks: seq<Qemu.Tick>, id: string, s': Qemu.State)
    requires Qemu.DevicesAfter(s, ticks, s') && id in s'.devices && s.devices[id].leaving
    ensures Qemu.Finish(id) !in ticks
  {
    assert Qemu.Remains(s, ticks, id);
  }

  lemma {:induction false} GotInHas(log: seq<Entry>, m: Qemu.Message)
    ensures m in GotIn(log) <==> Got(m) in log
  {
    if log != [] {
      var rest, last := log[..|log| - 1], log[|log| - 1];
      assert log == rest + [last];
      GotInHas(rest, m);
    }
  }

  /** waitDeleted waits exactly as long as it must: it ends in time if and only if QEMU finishes the
      removal, while the reply was read or after, and otherwise the device is still there. */
  lemma WaitIsExact(asked: Qemu.State, after: seq<Qemu.Tick>, id: string, s2: Qemu.State, inbox: seq<Qemu.Message>,
                    idle: seq<Qemu.Tick>, more: seq<Entry>, ok: bool, deleted: seq<string>, s3: Qemu.State,
                    inbox': seq<Qemu.Message>, idle': seq<Qemu.Tick>)
    requires id in asked.devices && asked.devices[id].leaving && (s2, inbox) == Qemu.HappenAll(asked, after)
    requires Streamed(s2, inbox, idle, GotIn(more), s3, inbox', idle')
    requires ok <==> id in deleted || Got(Qemu.Deleted(id)) in more
    requires !ok ==> inbox' == [] && idle' == []
    requires ok ==> id !in s3.devices
    ensures ok <==> Qemu.Finish(id) in after + idle
    ensures !ok ==> id in s3.devices && s3.devices[id].leaving
  {
    hide Qemu.HappenAll;
    var used :| Passed(s2, inbox, idle, GotIn(more), used, s3, inbox', idle');
    Qemu.TicksAct(asked, after);
    Qemu.TicksAct(s2, used);
    Qemu.DevicesChain(asked, after, s2, used, s3);
    assert Qemu.Finish(id) in after + used ==> Qemu.Finish(id) in after + idle;
    if !ok {
      assert used == idle;
      GotInHas(more, Qemu.Deleted(id));
      assert GotIn(more) == inbox + Qemu.HappenAll(s2, used).1;
      if Qemu.Finish(id) in after {
        Qemu.GoneIsTold(asked, after, id);
      } else if Qemu.Finish(id) in idle {
        assert Qemu.Remains(asked, after, id);
        Qemu.GoneIsTold(s2, used, id);
      }
      assert Qemu.Remains(asked, after + used, id);
    }
  }

  lemma SameNodes(s: Qemu.State, s': Qemu.State)
    requires Qemu.Later(s, s')
    ensures s'.nodes == s.nodes
  {
  }

  lemma NoneClosed(log: seq<Entry>, id: string)
    requires NeverCloses(log)
    ensures ClosedAfter(log, id)
  {
    forall k | 0 <= k < |log| && log[k].Sent? ensures !log[k].command.BlockdevDel? {
      assert log[k] in log;
    }
  }

  lemma NoneClosedMore(log: seq<Entry>, more: seq<Entry>, id: string)
    requires NeverCloses(log) && Reads(more)
    ensures NeverCloses(log + more) && ClosedAfter(log + more, id)
  {
    NoneClosed(log + more, id);
  }

  lemma ClosedLast(log: seq<Entry>, more: seq<Entry>, id: string)
    requires ClosedAfter(log, id) && Got(Qemu.Deleted(id)) in log
    ensures ClosedAfter(log + more, id)
  {
    var j :| 0 <= j < |log| && log[j] == Got(Qemu.Deleted(id));
    forall k | 0 <= k < |log + more| && (log + more)[k].Sent? && (log + more)[k].command.BlockdevDel?
      ensures exists i | 0 <= i < k :: (log + more)[i] == Got(Qemu.Deleted(id))
    {
      if k < |log| {
        assert log[k] == (log + more)[k];
        var i :| 0 <= i < k && log[i] == Got(Qemu.Deleted(id));
        assert (log + more)[i] == log[i];
      } else {
        assert (log + more)[j] == log[j];
      }
    }
  }

  lemma {:induction false} DeletedWereGot(log: seq<Entry>)
    ensures forall id | id in DeletedIn(log) :: Got(Qemu.Deleted(id)) in log
  {
    if log != [] {
      DeletedWereGot(log[..|log| - 1]);
      assert log[|log| - 1] in log;
      assert forall e | e in log[..|log| - 1] :: e in log;
    }
  }

  /** After device_del there are the same nodes, and every device but the one asked for is as it
      was. */
  ghost predicate Asked(s0: Qemu.State, s: Qemu.State, id: string) {
    && s.nodes == s0.nodes && id in s0.devices && OthersLater(s0, s, id)
    && (id in s.devices ==> s.devices[id].leaving)
  }

  lemma OthersChain(s0: Qemu.State, s: Qemu.State, s': Qemu.State, id: string)
    requires OthersLater(s0, s, id) && Qemu.Later(s, s')
    ensures OthersLater(s0, s', id)
  {
  }

  lemma AskedToLeave(s0: Qemu.State, s1: Qemu.State, id: string, h: Handling, s: Qemu.State)
    requires Qemu.Later(s0, s1)
    requires h.Unsent? ==> s == s1
    requires h.Handled? ==> Around(s1, Qemu.DeviceDel(id), h, s)
    ensures s.nodes == s0.nodes
    ensures h.Handled? && h.reply.Error? ==> Qemu.Later(s0, s)
    ensures h.Handled? && h.reply.Return? ==> Asked(s0, s, id)
    ensures OthersLater(s0, s, id)
  {
  }

  lemma DiskDeparted(s0: Qemu.State, s2: Qemu.State, s3: Qemu.State, target: nat, h: Handling,
                     s: Qemu.State, reply: Option<Qemu.Reply>)
    requires Asked(s0, s2, DiskId(target)) && Qemu.Later(s2, s3) && DiskId(target) !in s3.devices
    requires h.Unsent? ==> s == s3
    requires h.Handled? ==> Around(s3, Qemu.BlockdevDel(DriveId(target)), h, s)
    requires reply.Some? ==> h.Handled? && h.reply == reply.value
    ensures reply.Some? && reply.value.Return? ==> Departed(s0, s, target)
    ensures reply.Some? && reply.value.Error? ==> s.nodes == s0.nodes
    ensures DiskId(target) !in s.devices && OthersLater(s0, s, DiskId(target))
  {
    hide DriveId, DiskId;
  }

  // ----- together

  /** What attach did detach undoes: whatever QEMU finished by itself in between, what is left is
      the state there was before, less only removals already asked for then; and exactly that
      state when none were. */
  lemma DetachUndoesAttach(s0: Qemu.State, s1: Qemu.State, s2: Qemu.State, s3: Qemu.State, target: nat)
    requires Arrived(s0, s1, target) && Qemu.Later(s1, s2) && Departed(s2, s3, target)
    ensures Qemu.Later(s0, s3)
    ensures (forall id | id in s0.devices :: !s0.devices[id].leaving) ==> s3 == s0
  {
    hide DriveId, DiskId;
    assert s3.nodes == s0.nodes;
    if forall id | id in s0.devices :: !s0.devices[id].leaving {
      Qemu.NothingLeaving(s0, s3);
    }
  }

  /** Two targets never share an id, so a command for one never names the other's. */
  lemma TargetsAreApart(a: nat, b: nat)
    requires a != b
    ensures DiskId(a) != DiskId(b) && DriveId(a) != DriveId(b)
  {
    assert DiskId(a)[2..] == Itoa(a) && DiskId(b)[2..] == Itoa(b);
    if DriveId(a) == DriveId(b) {
      assert DriveId(a)[2..|DriveId(a)| - 6] == Itoa(a) && DriveId(b)[2..|DriveId(b)| - 6] == Itoa(b);
    }
    if Itoa(a) == Itoa(b) {
      ItoaInjective(a, b);
    }
  }
}
