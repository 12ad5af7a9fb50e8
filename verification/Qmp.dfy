/** The QMP client: one command at a time over a stream its replies share with events. */
module Qmp {
  import opened Qemu
  import opened Text

  /** What has gone over the connection, in order. */
  datatype Entry = Sent(command: Command) | Got(message: Message)

  function Next(turns: seq<Turn>): seq<Turn> { if turns == [] then [] else turns[1..] }

  /** Nothing is lost of the stream and nothing is put into it: what was read and what is unread is what
      was unread before and what QEMU said at the ticks that have passed since. */
  ghost predicate Streamed(qemu: State, inbox: seq<Message>, idle: seq<Tick>, read: seq<Message>,
                           qemu': State, inbox': seq<Message>, idle': seq<Tick>)
  {
    exists used :: Passed(qemu, inbox, idle, read, used, qemu', inbox', idle')
  }

  predicate Passed(qemu: State, inbox: seq<Message>, idle: seq<Tick>, read: seq<Message>, used: seq<Tick>,
                   qemu': State, inbox': seq<Message>, idle': seq<Tick>)
  {
    && idle == used + idle' && qemu' == HappenAll(qemu, used).0
    && inbox + HappenAll(qemu, used).1 == read + inbox'
  }

  lemma StreamNothing(qemu: State, inbox: seq<Message>, idle: seq<Tick>)
    ensures Streamed(qemu, inbox, idle, [], qemu, inbox, idle)
  {
    assert [] + idle == idle && inbox + [] == [] + inbox;
    assert Passed(qemu, inbox, idle, [], [], qemu, inbox, idle);
  }

  lemma StreamTick(qemu: State, inbox: seq<Message>, idle: seq<Tick>, read: seq<Message>,
                   q: State, i: seq<Message>, t: seq<Tick>)
    requires Streamed(qemu, inbox, idle, read, q, i, t) && t != [] && i == []
    ensures var (q', i') := HappenAll(q, [t[0]]); Streamed(qemu, inbox, idle, read, q', i', t[1..])
  {
    hide HappenAll;
    var used :| Passed(qemu, inbox, idle, read, used, q, i, t);
    HappenAllConcat(qemu, used, [t[0]]);
    var (q', i') := HappenAll(q, [t[0]]);
    assert used + [t[0]] + t[1..] == idle;
    assert inbox + (HappenAll(qemu, used).1 + i') == inbox + HappenAll(qemu, used).1 + i';
    assert read + [] + i' == read + i';
    assert Passed(qemu, inbox, idle, read, used + [t[0]], q', i', t[1..]);
  }

  lemma StreamRead(qemu: State, inbox: seq<Message>, idle: seq<Tick>, read: seq<Message>,
                   q: State, i: seq<Message>, t: seq<Tick>)
    requires Streamed(qemu, inbox, idle, read, q, i, t) && i != []
    ensures Streamed(qemu, inbox, idle, read + [i[0]], q, i[1..], t)
  {
    hide HappenAll;
    var used :| Passed(qemu, inbox, idle, read, used, q, i, t);
    assert read + i == read + [i[0]] + i[1..];
    assert Passed(qemu, inbox, idle, read + [i[0]], used, q, i[1..], t);
  }

  lemma StreamChains(qemu: State, inbox: seq<Message>, idle: seq<Tick>, read: seq<Message>,
                     q: State, i: seq<Message>, t: seq<Tick>, more: seq<Message>,
                     q': State, i': seq<Message>, t': seq<Tick>)
    requires Streamed(qemu, inbox, idle, read, q, i, t) && Streamed(q, i, t, more, q', i', t')
    ensures Streamed(qemu, inbox, idle, read + more, q', i', t')
  {
    hide HappenAll;
    var used :| Passed(qemu, inbox, idle, read, used, q, i, t);
    var used' :| Passed(q, i, t, more, used', q', i', t');
    HappenAllConcat(qemu, used, used');
    assert used + used' + t' == idle;
    var m, m' := HappenAll(qemu, used).1, HappenAll(q, used').1;
    assert inbox + (m + m') == inbox + m + m' == read + i + m' == read + (i + m');
    assert read + (more + i') == read + more + i';
    assert Passed(qemu, inbox, idle, read + more, used + used', q', i', t');
  }

  /** Of the ticks that have passed, the last finished the removal of a device that was there until
      then. */
  predicate JustGone(qemu: State, idle: seq<Tick>, idle': seq<Tick>, id: string) {
    && |idle'| < |idle|
    && var last := |idle| - |idle'| - 1;
       idle[last] == Finish(id) && id in HappenAll(qemu, idle[..last]).0.devices
  }

  lemma PassedIs(qemu: State, inbox: seq<Message>, idle: seq<Tick>, read: seq<Message>,
                 q: State, i: seq<Message>, t: seq<Tick>)
    requires Streamed(qemu, inbox, idle, read, q, i, t)
    ensures |t| <= |idle| && var n := |idle| - |t|; t == idle[n..] && q == HappenAll(qemu, idle[..n]).0
  {
    hide HappenAll;
    var used :| Passed(qemu, inbox, idle, read, used, q, i, t);
    assert idle[..|idle| - |t|] == used;
  }

  lemma TickTells(qemu: State, inbox: seq<Message>, idle: seq<Tick>, read: seq<Message>,
                  q: State, i: seq<Message>, t: seq<Tick>)
    requires Streamed(qemu, inbox, idle, read, q, i, t) && t != []
    ensures forall m | m in HappenAll(q, [t[0]]).1 && m.Deleted? && m.device != "" ::
              JustGone(qemu, idle, t[1..], m.device)
    ensures |HappenAll(q, [t[0]]).1| <= 1
  {
    PassedIs(qemu, inbox, idle, read, q, i, t);
    assert HappenAll(q, [t[0]]).1 == Happen(q, t[0]).1 + HappenAll(Happen(q, t[0]).0, []).1;
    hide HappenAll;
  }

  lemma GoneChains(qemu: State, inbox: seq<Message>, idle: seq<Tick>, read: seq<Message>,
                   q: State, i: seq<Message>, t: seq<Tick>, t': seq<Tick>, id: string)
    requires Streamed(qemu, inbox, idle, read, q, i, t) && JustGone(q, t, t', id)
    ensures JustGone(qemu, idle, t', id)
  {
    hide HappenAll;
    PassedIs(qemu, inbox, idle, read, q, i, t);
    var n, last := |idle| - |t|, |t| - |t'| - 1;
    assert idle[..n + last] == idle[..n] + t[..last];
    HappenAllConcat(qemu, idle[..n], t[..last]);
  }

  lemma NoneTruthful(s: State)
    ensures Truthful([], s) && NoAnswer([])
  {
  }

  lemma TailIsQuiet(ms: seq<Message>, s: State)
    requires ms != []
    ensures NoAnswer(ms) ==> NoAnswer(ms[1..]) && !ms[0].Answer?
    ensures Truthful(ms, s) ==> Truthful(ms[1..], s) && (ms[0].Deleted? ==> ms[0].device !in s.devices)
  {
  }

  /** The connection, and behind it QEMU with the choices it will make. */
  class Monitor {
    var qemu: State
    var inbox: seq<Message>
    var turns: seq<Turn>
    var idle: seq<Tick>
    ghost var log: seq<Entry>
    ghost var replies: seq<Reply>

    constructor (qemu: State, turns: seq<Turn>, idle: seq<Tick>)
      ensures this.qemu == qemu && this.turns == turns && this.idle == idle
      ensures inbox == [] && log == [] && replies == []
    {
      this.qemu, this.turns, this.idle := qemu, turns, idle;
      inbox, log, replies := [], [], [];
    }

    /** Encode a command onto the connection. QEMU answers in its own time: the reply is somewhere
        among what it sends, after events and before others. */
    method Send(c: Command) returns (ok: bool)
      modifies this
      ensures idle == old(idle)
      ensures ok <==> old(turns) != []
      ensures turns == Next(old(turns))
      ensures !ok ==> qemu == old(qemu) && inbox == old(inbox) && log == old(log) && replies == old(replies)
      ensures ok ==>
                var (s, ms, r) := Respond(old(qemu), c, old(turns)[0]);
                && qemu == s && inbox == old(inbox) + ms && log == old(log) + [Sent(c)]
                && replies == old(replies) + (if old(turns)[0].cut then [] else [r])
    {
      if turns == [] {
        return false;
      }
      var turn := turns[0];
      var (s, ms, r) := Respond(qemu, c, turn);
      qemu, inbox, turns := s, inbox + ms, turns[1..];
      log := log + [Sent(c)];
      replies := replies + if turn.cut then [] else [r];
      return true;
    }

    /** Decode the next message: what is there already, or else what QEMU comes to say by itself.
        None is the end of the stream, or a deadline. */
    method Receive() returns (m: Option<Message>)
      requires Sound(qemu)
      modifies this
      ensures Sound(qemu) && replies == old(replies)
      ensures old(inbox) != [] ==>
                m == Some(old(inbox)[0]) && inbox == old(inbox)[1..] && qemu == old(qemu)
      ensures turns == old(turns)
      ensures Streamed(old(qemu), old(inbox), old(idle), if m.Some? then [m.value] else [], qemu, inbox, idle)
      ensures m.None? ==> idle == []
      ensures old(inbox) == [] && m.Some? && m.value.Deleted? && m.value.device != "" ==>
                JustGone(old(qemu), old(idle), idle, m.value.device)
      ensures old(inbox) == [] ==> inbox == [] && Later(old(qemu), qemu)
      ensures old(inbox) == [] && m.Some? ==>
                !m.value.Answer? && (m.value.Deleted? ==> m.value.device !in qemu.devices)
      ensures old(inbox) != [] ==> idle == old(idle)
      ensures old(inbox) == [] && m.Some? ==> |idle| < |old(idle)|
      ensures m.Some? ==> log == old(log) + [Got(m.value)]
      ensures m.None? ==> log == old(log) && inbox == []
    {
      hide Truthful, Later, NoAnswer, HappenAll, Sound, Streamed, JustGone;
      StreamNothing(qemu, inbox, idle);
      NoneTruthful(qemu);
      LaterItself(qemu);
      while inbox == [] && idle != []
        invariant Sound(qemu) && replies == old(replies) && log == old(log)
        invariant turns == old(turns)
        invariant Streamed(old(qemu), old(inbox), old(idle), [], qemu, inbox, idle)
        invariant old(inbox) != [] ==> inbox == old(inbox) && qemu == old(qemu) && idle == old(idle)
        invariant old(inbox) == [] ==> |inbox| <= 1 && forall m | m in inbox && m.Deleted? && m.device != "" ::
                    JustGone(old(qemu), old(idle), idle, m.device)
        invariant |idle| <= |old(idle)| && (old(inbox) == [] && inbox != [] ==> |idle| < |old(idle)|)
        invariant old(inbox) == [] ==> NoAnswer(inbox) && Later(old(qemu), qemu) && Truthful(inbox, qemu)
        decreases idle
      {
        TicksOnlyFinish(qemu, [idle[0]]);
        TickTells(old(qemu), old(inbox), old(idle), [], qemu, inbox, idle);
        StreamTick(old(qemu), old(inbox), old(idle), [], qemu, inbox, idle);
        LaterChains(old(qemu), qemu, HappenAll(qemu, [idle[0]]).0);
        var (s, ms) := HappenAll(qemu, [idle[0]]);
        qemu, inbox, idle := s, ms, idle[1..];
      }
      if inbox == [] {
        return None;
      }
      StreamRead(old(qemu), old(inbox), old(idle), [], qemu, inbox, idle);
      assert [] + [inbox[0]] == [inbox[0]];
      m := Some(inbox[0]);
      TailIsQuiet(inbox, qemu);
      log := log + [Got(inbox[0])];
      inbox := inbox[1..];
    }
  }

  /** The ids of the DEVICE_DELETED events among some entries, in order. */
  function DeletedIn(log: seq<Entry>): seq<string> {
    if log == [] then [] else
      DeletedIn(log[..|log| - 1]) +
      (var e := log[|log| - 1]; if e.Got? && e.message.Deleted? then [e.message.device] else [])
  }

  /** The commands among some entries, in order. */
  function SentIn(log: seq<Entry>): seq<Command> {
    if log == [] then [] else SentIn(log[..|log| - 1]) + (if log[|log| - 1].Sent? then [log[|log| - 1].command] else [])
  }

  /** The messages among some entries, in order. */
  function GotIn(log: seq<Entry>): seq<Message> {
    if log == [] then [] else GotIn(log[..|log| - 1]) + (if log[|log| - 1].Got? then [log[|log| - 1].message] else [])
  }

  lemma GotMore(log: seq<Entry>, m: Message)
    ensures GotIn(log + [Got(m)]) == GotIn(log) + [m]
  {
    assert (log + [Got(m)])[..|log|] == log;
  }

  lemma {:induction false} SentInConcat(a: seq<Entry>, b: seq<Entry>)
    ensures SentIn(a + b) == SentIn(a) + SentIn(b)
  {
    if b == [] {
      assert a + b == a;
    } else {
      assert (a + b)[..|a + b| - 1] == a + b[..|b| - 1];
      SentInConcat(a, b[..|b| - 1]);
    }
  }

  lemma {:induction false} ReadsSendNothing(log: seq<Entry>)
    requires Reads(log)
    ensures SentIn(log) == []
  {
    if log != [] {
      assert log[|log| - 1] in log && forall e | e in log[..|log| - 1] :: e in log;
      ReadsSendNothing(log[..|log| - 1]);
    }
  }

  /** A command, what was read after it, and the first reply, which is the last of it. */
  predicate Exchange(log: seq<Entry>, command: Command, reply: Reply) {
    && |log| >= 2 && log[0] == Sent(command) && log[|log| - 1] == Got(Answer(reply))
    && forall i | 0 < i < |log| - 1 :: Quiet(log[i])
  }

  predicate Quiet(e: Entry) { e.Got? && !e.message.Answer? }

  predicate AllQuiet(log: seq<Entry>) { forall i | 0 <= i < |log| :: Quiet(log[i]) }

  lemma SentExchange(command: Command, more: seq<Entry>, reply: Reply)
    requires more != [] && more[|more| - 1] == Got(Answer(reply)) && AllQuiet(more[..|more| - 1])
    ensures Exchange([Sent(command)] + more, command, reply)
  {
    var log := [Sent(command)] + more;
    forall i | 0 < i < |log| - 1 ensures Quiet(log[i]) {
      assert log[i] == more[..|more| - 1][i - 1];
    }
  }

  lemma SentOnce(command: Command, more: seq<Entry>)
    requires Reads(more)
    ensures SentIn([Sent(command)] + more) == [command]
  {
    SentInConcat([Sent(command)], more);
    ReadsSendNothing(more);
    assert [Sent(command)][..0] == [];
  }

  /** How a command fared at QEMU: never sent, or handled between two states with a reply. */
  datatype Handling = Unsent | Handled(before: State, after: State, fails: bool, says: Reply, reply: Reply)

  /** A command handled once, with nothing but removals before and after. */
  ghost predicate Around(s: State, command: Command, h: Handling, s': State)
    requires h.Handled?
  {
    && Later(s, h.before) && Sound(h.before) && Later(h.after, s')
    && Handle(h.before, command, h.fails, h.says) == (h.after, h.reply)
  }

  /** QEMU's ticks around a command whose reply was read, and what is unread after it. */
  ghost predicate InTurn(s: State, turn: Turn, h: Handling, s': State, inbox: seq<Message>)
    requires h.Handled?
  {
    h.before == HappenAll(s, turn.before).0 && (s', inbox) == HappenAll(h.after, turn.after)
  }

  predicate Reads(log: seq<Entry>) { forall e | e in log :: e.Got? }

  class QmpConn {
    const c: Monitor
    var deleted: seq<string>

    constructor (c: Monitor)
      ensures this.c == c && deleted == []
    {
      this.c := c;
      deleted := [];
    }

    /** Between commands nothing unread is a reply. */
    ghost predicate Idle()
      reads this, c
    {
      NoAnswer(c.inbox) && Sound(c.qemu)
    }

    /** What has been reported gone is gone. */
    ghost predicate Honest()
      reads this, c
    {
      Truthful(c.inbox, c.qemu) && forall id | id in deleted :: id !in c.qemu.devices
    }

    /** The loop of run: events are dropped or noted, and the first reply ends it. */
    method ReadReply(ghost cut: bool, ghost ahead: seq<Message>, ghost behind: seq<Message>, ghost reply: Reply)
      returns (r: Option<Reply>, ghost more: seq<Entry>)
      requires Sound(c.qemu) && NoAnswer(ahead) && NoAnswer(behind)
      requires if cut then NoAnswer(c.inbox) else c.inbox == ahead + [Answer(reply)] + behind
      modifies this, c
      ensures Idle() && c.replies == old(c.replies) && c.turns == old(c.turns)
      ensures r == if cut then None else Some(reply)
      ensures Later(old(c.qemu), c.qemu) && (!cut ==> c.qemu == old(c.qemu))
      ensures c.log == old(c.log) + more && Reads(more) && deleted == old(deleted) + DeletedIn(more)
      ensures r.Some? ==> more != [] && more[|more| - 1] == Got(Answer(reply)) && AllQuiet(more[..|more| - 1])
      ensures r.Some? ==> c.inbox == behind && c.idle == old(c.idle)
      ensures old(Honest()) ==> Honest()
    {
      hide Sound, Later, Streamed;
      more := [];
      ghost var left := ahead;
      LaterItself(c.qemu);
      while true
        invariant AllQuiet(more) && (!cut ==> c.idle == old(c.idle))
        invariant Sound(c.qemu) && NoAnswer(left) && c.turns == old(c.turns)
        invariant if cut then NoAnswer(c.inbox) else c.inbox == left + [Answer(reply)] + behind
        invariant c.replies == old(c.replies) && (!cut ==> c.qemu == old(c.qemu)) && Later(old(c.qemu), c.qemu)
        invariant c.log == old(c.log) + more && Reads(more) && deleted == old(deleted) + DeletedIn(more)
        invariant old(Honest()) ==> Honest()
        decreases |c.idle|, |c.inbox|
      {
        ghost var was, unread := c.qemu, c.inbox;
        var m := c.Receive();
        if unread == [] {
          LaterChains(old(c.qemu), was, c.qemu);
          if old(Honest()) {
            DeletedStaysGone(deleted, was, c.qemu);
          }
        }
        if m.None? {
          return None, more;
        }
        assert (more + [Got(m.value)])[..|more|] == more;
        more := more + [Got(m.value)];
        assert c.log == old(c.log) + more;
        match m.value {
          case Deleted(device) =>
            deleted := deleted + [device];
          case Event(_) =>
          case Answer(answer) =>
            assert cut || (left == [] && c.inbox == behind);
            return Some(answer), more;
        }
        if !cut {
          assert left != [];
          left := left[1..];
        }
      }
    }

    /** run: the reply it returns is the reply to its own command, the next of all QEMU ever makes,
        wherever events fall around it; and every DEVICE_DELETED read on the way is kept. before and
        after are QEMU's states around the handling of the command. */
    method Run(command: Command) returns (r: Option<Reply>, ghost h: Handling)
      requires Idle()
      modifies this, c
      ensures Idle() && old(c.log) <= c.log
      ensures c.turns == Next(old(c.turns)) && (r.None? <==> old(c.turns) == [] || old(c.turns)[0].cut)
      ensures h.Unsent? ==> r.None? && c.qemu == old(c.qemu)
      ensures h.Handled? <==> old(c.turns) != []
      ensures h.Handled? ==> h.fails == old(c.turns)[0].fails && h.says == old(c.turns)[0].says
      ensures r.Some? ==> InTurn(old(c.qemu), old(c.turns)[0], h, c.qemu, c.inbox) && c.idle == old(c.idle)
      ensures SentIn(c.log[|old(c.log)|..]) == if old(c.turns) == [] then [] else [command]
      ensures r.Some? ==> Exchange(c.log[|old(c.log)|..], command, r.value)
      ensures h.Handled? ==> Around(old(c.qemu), command, h, c.qemu)
      ensures r.Some? ==> h.Handled? && h.reply == r.value && c.replies == old(c.replies) + [r.value]
      ensures old(Honest()) && !Adds(command) ==> Honest()
      ensures deleted == old(deleted) + DeletedIn(c.log[|old(c.log)|..])
      ensures forall e | e in c.log[|old(c.log)|..] && e.Sent? :: e.command == command
    {
      hide Later, Respond, Handle, HappenAll, Sound, Truthful, DeletedIn, SentIn, Exchange, AllQuiet;
      ghost var start, unread := c.qemu, c.inbox;
      h := Unsent;
      ghost var before, after, turn := start, start, Turn([], false, Return(""), [], true);
      ghost var m1, m3 := [], [];
      if c.turns != [] {
        turn := c.turns[0];
        before, after := RespondIs(start, command, turn);
        m1, m3 := RespondAnswersOnce(start, command, turn);
        if !Adds(command) {
          RespondIsTruthful(start, command, turn);
        }
      }
      var ok := c.Send(command);
      if !ok {
        assert c.log[|old(c.log)|..] == [];
        NothingDeleted();
        NothingWasSent();
        return None, h;
      }
      ghost var (s3, ms, reply) := Respond(start, command, turn);
      if old(Honest()) && !Adds(command) {
        HonestAfter(unread, ms, deleted, start, s3);
      }
      ghost var more;
      r, more := ReadReply(turn.cut, unread + m1, m3, reply);
      LaterChains(after, s3, c.qemu);
      h := Handled(before, after, turn.fails, turn.says, reply);
      SentThenRead(command, more);
      SentOnce(command, more);
      if r.Some? {
        SentExchange(command, more, reply);
      }
      assert c.log[|old(c.log)|..] == [Sent(command)] + more;
    }

    /** waitDeleted: at once when the event was read with an earlier reply, and otherwise when it
        comes; false is the deadline. */
    method WaitDeleted(id: string) returns (ok: bool, ghost more: seq<Entry>)
      requires Idle()
      modifies c
      ensures Idle() && Later(old(c.qemu), c.qemu) && c.replies == old(c.replies) && c.turns == old(c.turns)
      ensures c.log == old(c.log) + more && Reads(more)
      ensures ok <==> id in deleted || Got(Deleted(id)) in more
      ensures Streamed(old(c.qemu), old(c.inbox), old(c.idle), GotIn(more), c.qemu, c.inbox, c.idle)
      ensures !ok ==> c.inbox == [] && c.idle == []
      ensures id in deleted ==> more == []
      ensures id in deleted || Deleted(id) in old(c.inbox) ==> c.idle == old(c.idle)
      ensures ok && id != "" && id !in deleted && Deleted(id) !in old(c.inbox) ==>
                JustGone(old(c.qemu), old(c.idle), c.idle, id)
      ensures ok && id !in deleted ==> more[|more| - 1] == Got(Deleted(id)) && Got(Deleted(id)) !in more[..|more| - 1]
      ensures old(Honest()) ==> Honest() && (ok ==> id !in c.qemu.devices)
    {
      hide Sound, Later, Streamed, NoAnswer, Truthful, GotIn, Reads, JustGone;
      more := [];
      NothingGot();
      LaterItself(c.qemu);
      StreamNothing(c.qemu, c.inbox, c.idle);
      if id in deleted {
        return true, more;
      }
      while true
        invariant Idle() && Later(old(c.qemu), c.qemu) && c.replies == old(c.replies) && c.turns == old(c.turns)
        invariant c.log == old(c.log) + more && Reads(more) && Got(Deleted(id)) !in more
        invariant Streamed(old(c.qemu), old(c.inbox), old(c.idle), GotIn(more), c.qemu, c.inbox, c.idle)
        invariant old(Honest()) ==> Honest()
        invariant Deleted(id) in c.inbox ==> Deleted(id) in old(c.inbox)
        invariant Deleted(id) in old(c.inbox) ==> Deleted(id) in c.inbox && c.idle == old(c.idle)
        decreases |c.idle|, |c.inbox|
      {
        ghost var was, unread, ticks := c.qemu, c.inbox, c.idle;
        var m := c.Receive();
        NoneTruthful(c.qemu);
        if unread == [] {
          LaterChains(old(c.qemu), was, c.qemu);
          if old(Honest()) {
            DeletedStaysGone(deleted, was, c.qemu);
          }
        } else {
          TailIsQuiet(unread, was);
        }
        StreamChains(old(c.qemu), old(c.inbox), old(c.idle), GotIn(more), was, unread, ticks,
                     if m.Some? then [m.value] else [], c.qemu, c.inbox, c.idle);
        if m.None? {
          assert GotIn(more) + [] == GotIn(more);
          return false, more;
        }
        ghost var before := more;
        GotMore(more, m.value);
        ReadsMore(more, m.value);
        assert (more + [Got(m.value)])[..|more|] == more;
        more := more + [Got(m.value)];
        if m.value == Deleted(id) {
          if id != "" && unread == [] {
            GoneChains(old(c.qemu), old(c.inbox), old(c.idle), GotIn(before), was, unread, ticks, c.idle, id);
          }
          return true, more;
        }
      }
    }
  }

  lemma LaterItself(s: State)
    ensures Later(s, s)
  {
  }

  lemma DeletedStaysGone(deleted: seq<string>, s: State, s': State)
    requires Later(s, s') && forall id | id in deleted :: id !in s.devices
    ensures forall id | id in deleted :: id !in s'.devices
  {
  }

  lemma NothingGot()
    ensures GotIn([]) == [] && Reads([])
  {
  }

  lemma ReadsMore(more: seq<Entry>, m: Message)
    requires Reads(more)
    ensures Reads(more + [Got(m)])
  {
  }

  lemma NothingWasSent()
    ensures SentIn([]) == []
  {
  }

  lemma NothingDeleted()
    ensures DeletedIn([]) == []
  {
  }

  lemma HonestAfter(unread: seq<Message>, ms: seq<Message>, deleted: seq<string>, s: State, s': State)
    requires Truthful(unread, s) && Truthful(ms, s') && forall id | id in s'.devices :: id in s.devices
    requires forall id | id in deleted :: id !in s.devices
    ensures Truthful(unread + ms, s') && forall id | id in deleted :: id !in s'.devices
  {
  }

  lemma {:induction false} SentThenRead(command: Command, more: seq<Entry>)
    requires Reads(more)
    ensures DeletedIn([Sent(command)] + more) == DeletedIn(more)
  {
    var all := [Sent(command)] + more;
    if more == [] {
      assert all[..0] == [];
    } else {
      assert all[..|all| - 1] == [Sent(command)] + more[..|more| - 1];
      SentThenRead(command, more[..|more| - 1]);
    }
  }
}
