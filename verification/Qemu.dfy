/** QEMU as the other end of a QMP connection: what it does with a command, and what it may do at
    any moment by itself. Nothing is assumed of when: every choice is a script the client cannot
    see. */
module Qemu {

  /** A disk on the SCSI controller: its target, its block node, and whether it was asked to go. */
  datatype Device = Device(target: nat, node: string, leaving: bool)

  datatype State = State(nodes: set<string>, devices: map<string, Device>)

  datatype Command =
    | Capabilities
    | BlockdevAdd(node: string, file: string) | BlockdevDel(node: string)
    | DeviceAdd(id: string, target: nat, node: string) | DeviceDel(id: string)
    | Migrate(uri: string) | MigrateIncoming(uri: string) | QueryMigrate | QueryStatus | Cont | Quit

  datatype Reply = Return(value: string) | Error(desc: string)

  datatype Message = Deleted(device: string) | Event(name: string) | Answer(reply: Reply)

  /** What QEMU may do by itself: finish a removal that was asked for, lose a part of a device that
      has no id, or say something nobody waits for. */
  datatype Tick = Finish(id: string) | LosePart | Say(name: string)

  /** QEMU's side of one command: what happens before it is handled, whether something outside the
      model makes it fail, what it answers where the model has no say, what happens after, and
      whether the connection dies before the reply. */
  datatype Turn = Turn(before: seq<Tick>, fails: bool, says: Reply, after: seq<Tick>, cut: bool)

  /** Every device sits on its own node and its own target, and on a node that is there. */
  ghost predicate Sound(s: State) {
    && (forall id | id in s.devices :: s.devices[id].node in s.nodes)
    && (forall a, b | a in s.devices && b in s.devices && a != b ::
          s.devices[a].node != s.devices[b].node && s.devices[a].target != s.devices[b].target)
    && "" !in s.devices
  }

  predicate InUse(s: State, node: string) { exists id | id in s.devices :: s.devices[id].node == node }

  predicate TargetTaken(s: State, target: nat) { exists id | id in s.devices :: s.devices[id].target == target }

  function Handle(s: State, c: Command, fails: bool, says: Reply): (State, Reply) {
    match c
    case BlockdevAdd(node, _) =>
      if fails || node in s.nodes then (s, Error("blockdev-add")) else (s.(nodes := s.nodes + {node}), Return(""))
    case BlockdevDel(node) =>
      if fails || node !in s.nodes || InUse(s, node) then (s, Error("blockdev-del"))
      else (s.(nodes := s.nodes - {node}), Return(""))
    case DeviceAdd(id, target, node) =>
      if fails || id == "" || id in s.devices || TargetTaken(s, target) || node !in s.nodes || InUse(s, node) then
        (s, Error("device_add"))
      else (s.(devices := s.devices[id := Device(target, node, false)]), Return(""))
    case DeviceDel(id) =>
      if fails || id !in s.devices || s.devices[id].leaving then (s, Error("device_del"))
      else (s.(devices := s.devices[id := s.devices[id].(leaving := true)]), Return(""))
    case _ => (s, says)
  }

  function Happen(s: State, t: Tick): (State, seq<Message>) {
    match t
    case Finish(id) =>
      if id in s.devices && s.devices[id].leaving then (s.(devices := s.devices - {id}), [Deleted(id)]) else (s, [])
    case LosePart => (s, [Deleted("")])
    case Say(name) => (s, [Event(name)])
  }

  function HappenAll(s: State, ts: seq<Tick>): (State, seq<Message>)
    decreases |ts|
  {
    if ts == [] then (s, []) else
      var (s1, m1) := Happen(s, ts[0]);
      var (s2, m2) := HappenAll(s1, ts[1..]);
      (s2, m1 + m2)
  }

  /** What is sent for a command: events, the reply unless the connection is cut, and more events. */
  function Respond(s: State, c: Command, t: Turn): (State, seq<Message>, Reply) {
    var (s1, m1) := HappenAll(s, t.before);
    var (s2, r) := Handle(s1, c, t.fails, t.says);
    var (s3, m3) := HappenAll(s2, t.after);
    (s3, m1 + (if t.cut then [] else [Answer(r)]) + m3, r)
  }

  /** s' is s with nothing done but removals that had been asked for. */
  ghost predicate Later(s: State, s': State) {
    && s'.nodes == s.nodes
    && (forall id | id in s'.devices :: id in s.devices && s'.devices[id] == s.devices[id])
    && (forall id | id in s.devices && id !in s'.devices :: s.devices[id].leaving)
  }

  lemma LaterChains(a: State, b: State, c: State)
    requires Later(a, b) && Later(b, c)
    ensures Later(a, c)
  {
  }

  /** With nothing asked to leave, nothing changes by itself. */
  lemma NothingLeaving(s: State, s': State)
    requires Later(s, s') && forall id | id in s.devices :: !s.devices[id].leaving
    ensures s' == s
  {
    assert s'.devices == s.devices;
  }

  predicate NoAnswer(ms: seq<Message>) { forall m | m in ms :: !m.Answer? }

  /** Every DEVICE_DELETED in ms is of a part without an id or of a device that is not there. */
  ghost predicate Truthful(ms: seq<Message>, s: State) {
    forall m | m in ms && m.Deleted? :: m.device !in s.devices
  }

  lemma {:induction false} TicksOnlyFinish(s: State, ts: seq<Tick>)
    requires Sound(s)
    ensures Later(s, HappenAll(s, ts).0) && Sound(HappenAll(s, ts).0)
    ensures NoAnswer(HappenAll(s, ts).1) && Truthful(HappenAll(s, ts).1, HappenAll(s, ts).0)
    decreases |ts|
  {
    if ts != [] {
      var (s1, m1) := Happen(s, ts[0]);
      TicksOnlyFinish(s1, ts[1..]);
      LaterChains(s, s1, HappenAll(s1, ts[1..]).0);
    }
  }

  lemma {:induction false} HappenAllConcat(s: State, a: seq<Tick>, b: seq<Tick>)
    ensures var (s1, m1) := HappenAll(s, a);
            var (s2, m2) := HappenAll(s1, b);
            HappenAll(s, a + b) == (s2, m1 + m2)
    decreases |a|
  {
    hide Happen;
    if a == [] {
      assert a + b == b && [] + HappenAll(s, b).1 == HappenAll(s, b).1;
    } else {
      assert (a + b)[0] == a[0] && (a + b)[1..] == a[1..] + b;
      var (s1, m1) := Happen(s, a[0]);
      HappenAllConcat(s1, a[1..], b);
      var (s2, m2) := HappenAll(s1, a[1..]);
      assert m1 + (m2 + HappenAll(s2, b).1) == m1 + m2 + HappenAll(s2, b).1;
    }
  }

  /** A device that is still there after some ticks: none of them finished its removal. */
  predicate Remains(s: State, ts: seq<Tick>, x: string) {
    x in s.devices && !(s.devices[x].leaving && Finish(x) in ts)
  }

  /** The devices of s' are those of s that remain after some ticks. */
  ghost predicate DevicesAfter(s: State, ts: seq<Tick>, s': State) {
    && (forall x :: x in s'.devices <==> Remains(s, ts, x))
    && (forall x | x in s'.devices :: s'.devices[x] == s.devices[x])
  }

  lemma DevicesChain(a: State, ts: seq<Tick>, b: State, us: seq<Tick>, c: State)
    requires DevicesAfter(a, ts, b) && DevicesAfter(b, us, c)
    ensures DevicesAfter(a, ts + us, c)
  {
    forall x ensures x in c.devices <==> Remains(a, ts + us, x) {
      assert Finish(x) in ts + us <==> Finish(x) in ts || Finish(x) in us;
      assert x in b.devices <==> Remains(a, ts, x);
    }
  }

  lemma SameDevices(s: State, s': State)
    requires s'.devices == s.devices
    ensures DevicesAfter(s, [], s')
  {
  }

  /** What ticks do, exactly: the nodes stay, and of the devices those leave that were asked to and
      whose removal one of the ticks finishes. */
  lemma {:induction false} TicksAct(s: State, ts: seq<Tick>)
    ensures DevicesAfter(s, ts, HappenAll(s, ts).0) && HappenAll(s, ts).0.nodes == s.nodes
    decreases |ts|
  {
    if ts != [] {
      hide DevicesAfter, Happen, Remains;
      var s1 := Happen(s, ts[0]).0;
      TickActs(s, ts[0]);
      TicksAct(s1, ts[1..]);
      DevicesChain(s, [ts[0]], s1, ts[1..], HappenAll(s1, ts[1..]).0);
      assert [ts[0]] + ts[1..] == ts;
    } else {
      SameDevices(s, s);
    }
  }

  lemma TickActs(s: State, t: Tick)
    ensures DevicesAfter(s, [t], Happen(s, t).0) && Happen(s, t).0.nodes == s.nodes
  {
  }

  /** And a removal that is finished is told. */
  lemma {:induction false} GoneIsTold(s: State, ts: seq<Tick>, x: string)
    requires x in s.devices && s.devices[x].leaving && Finish(x) in ts
    ensures Deleted(x) in HappenAll(s, ts).1
    decreases |ts|
  {
    if ts[0] != Finish(x) {
      GoneIsTold(Happen(s, ts[0]).0, ts[1..], x);
    }
  }

  lemma HandleIsSound(s: State, c: Command, fails: bool, says: Reply)
    requires Sound(s)
    ensures Sound(Handle(s, c, fails, says).0)
  {
  }

  /** Around a command there are only removals; the command itself is handled once, between them,
      and its reply is the only one sent. */
  lemma RespondIs(s: State, c: Command, t: Turn) returns (s1: State, s2: State)
    requires Sound(s)
    ensures var (s3, ms, r) := Respond(s, c, t);
            && Later(s, s1) && Sound(s1) && Handle(s1, c, t.fails, t.says) == (s2, r) && Later(s2, s3) && Sound(s3)
            && s1 == HappenAll(s, t.before).0 && s3 == HappenAll(s2, t.after).0
  {
    s1 := HappenAll(s, t.before).0;
    TicksOnlyFinish(s, t.before);
    HandleIsSound(s1, c, t.fails, t.says);
    s2 := Handle(s1, c, t.fails, t.says).0;
    TicksOnlyFinish(s2, t.after);
  }

  predicate Adds(c: Command) { c.DeviceAdd? }

  lemma StaysTruthful(ms: seq<Message>, s: State, s': State)
    requires Truthful(ms, s) && forall id | id in s'.devices :: id in s.devices
    ensures Truthful(ms, s')
  {
  }

  /** No device comes but by device_add, so what has been reported gone stays gone. */
  lemma RespondIsTruthful(s: State, c: Command, t: Turn)
    requires Sound(s) && !Adds(c)
    ensures var (s3, ms, r) := Respond(s, c, t);
            Truthful(ms, s3) && forall id | id in s3.devices :: id in s.devices
  {
    hide Handle, HappenAll, Truthful, Sound;
    var (s1, m1) := HappenAll(s, t.before);
    TicksOnlyFinish(s, t.before);
    var (s2, r) := Handle(s1, c, t.fails, t.says);
    HandleIsSound(s1, c, t.fails, t.says);
    HandleAddsNone(s1, c, t.fails, t.says);
    TicksOnlyFinish(s2, t.after);
    var (s3, m3) := HappenAll(s2, t.after);
    StaysTruthful(m1, s1, s3);
    BothTruthful(m1, if t.cut then [] else [Answer(r)], m3, s3);
  }

  lemma HandleAddsNone(s: State, c: Command, fails: bool, says: Reply)
    requires !Adds(c)
    ensures forall id | id in Handle(s, c, fails, says).0.devices :: id in s.devices
  {
  }

  lemma BothTruthful(a: seq<Message>, reply: seq<Message>, b: seq<Message>, s: State)
    requires Truthful(a, s) && Truthful(b, s) && forall m | m in reply :: m.Answer?
    ensures Truthful(a + reply + b, s)
  {
  }

  /** Of a command's messages, one is the reply unless the connection was cut. */
  lemma RespondAnswersOnce(s: State, c: Command, t: Turn) returns (m1: seq<Message>, m3: seq<Message>)
    requires Sound(s)
    ensures var (s3, ms, r) := Respond(s, c, t);
            && ms == m1 + (if t.cut then [] else [Answer(r)]) + m3 && NoAnswer(m1) && NoAnswer(m3)
            && m3 == HappenAll(Handle(HappenAll(s, t.before).0, c, t.fails, t.says).0, t.after).1
  {
    var s1 := HappenAll(s, t.before).0;
    m1 := HappenAll(s, t.before).1;
    TicksOnlyFinish(s, t.before);
    HandleIsSound(s1, c, t.fails, t.says);
    var s2 := Handle(s1, c, t.fails, t.says).0;
    TicksOnlyFinish(s2, t.after);
    m3 := HappenAll(s2, t.after).1;
  }
}
