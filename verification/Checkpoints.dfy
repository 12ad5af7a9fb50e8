/** save and restore: a migration started, waited for, and what may only follow it. */
module Checkpoints {
  import opened Text
  import Qemu
  import opened Qmp
  import opened Commands

  // ----- what the log says

  predicate ExchangeAt(log: seq<Entry>, j: nat, k: nat, c: Qemu.Command, value: string) {
    j < k < |log| && Exchange(log[j..k + 1], c, Qemu.Return(value))
  }

  /** A command was sent, and the first reply after it, with no other command in between, returned this
      value. */
  ghost predicate Answered(log: seq<Entry>, c: Qemu.Command, value: string) {
    exists j: nat, k: nat :: ExchangeAt(log, j, k, c, value)
  }

  /** Whenever a command was sent, another had been answered so before. */
  ghost predicate OnlyAfter(log: seq<Entry>, c: Qemu.Command, q: Qemu.Command, value: string) {
    forall p | 0 <= p < |log| && log[p] == Sent(c) :: Answered(log[..p], q, value)
  }

  lemma ExchangeIsAnswer(log: seq<Entry>, c: Qemu.Command, value: string)
    requires Exchange(log, c, Qemu.Return(value))
    ensures Answered(log, c, value)
  {
    assert log[0..|log| - 1 + 1] == log;
    assert ExchangeAt(log, 0, |log| - 1, c, value);
  }

  lemma AnsweredWithin(a: seq<Entry>, b: seq<Entry>, d: seq<Entry>, c: Qemu.Command, value: string)
    requires Answered(b, c, value)
    ensures Answered(a + b + d, c, value)
  {
    hide Exchange;
    var j: nat, k: nat :| ExchangeAt(b, j, k, c, value);
    var log := a + b + d;
    assert log[|a| + j..|a| + k + 1] == b[j..k + 1];
    assert ExchangeAt(log, |a| + j, |a| + k, c, value);
  }

  lemma {:induction false} SentInHas(log: seq<Entry>, c: Qemu.Command)
    ensures c in SentIn(log) <==> Sent(c) in log
  {
    if log != [] {
      var rest, last := log[..|log| - 1], log[|log| - 1];
      assert log == rest + [last];
      SentInHas(rest, c);
    }
  }

  lemma NotBefore(log: seq<Entry>, more: seq<Entry>, p: nat, c: Qemu.Command)
    requires Sent(c) !in log && p < |log + more| && (log + more)[p] == Sent(c)
    ensures |log| <= p
  {
    assert forall i | 0 <= i < |log| :: log[i] in log;
  }

  /** What follows the answer comes after it. */
  lemma FollowsAnswer(log: seq<Entry>, more: seq<Entry>, c: Qemu.Command, q: Qemu.Command, value: string)
    requires Sent(c) !in log && Answered(log, q, value)
    ensures OnlyAfter(log + more, c, q, value)
  {
    hide Answered;
    var all := log + more;
    forall p | 0 <= p < |all| && all[p] == Sent(c) ensures Answered(all[..p], q, value) {
      NotBefore(log, more, p, c);
      assert all[..p] == [] + log + more[..p - |log|];
      AnsweredWithin([], log, more[..p - |log|], q, value);
    }
  }

  lemma NeverSent(log: seq<Entry>, c: Qemu.Command, q: Qemu.Command, value: string)
    requires Sent(c) !in log
    ensures OnlyAfter(log, c, q, value)
  {
    assert forall p | 0 <= p < |log| :: log[p] in log;
  }

  // ----- waiting for a migration

  datatype Migration = Completed | Failed(status: string) | NotInTime | NoReply(reply: Option<Qemu.Reply>)

  /** How waiting ends, from what QEMU will say to the questions, of which the deadline leaves time for
      polls after the first. */
  function Poll(turns: seq<Qemu.Turn>, polls: nat): Migration {
    if !Ran(turns, 0) then NoReply(None)
    else
      match turns[0].says
      case Error(e) => NoReply(Some(Qemu.Error(e)))
      case Return(v) =>
        if v == "completed" then Completed
        else if v == "failed" || v == "cancelled" then Failed(v)
        else if polls == 0 then NotInTime
        else Poll(turns[1..], polls - 1)
  }

  /** QEMU says that it goes on, and there is time to ask again. */
  predicate GoesOn(turns: seq<Qemu.Turn>, polls: nat) {
    Ran(turns, 0) && turns[0].says.Return? && polls > 0 && turns[0].says.value !in {"completed", "failed", "cancelled"}
  }

  /** How often it is asked. */
  function Polled(turns: seq<Qemu.Turn>, polls: nat): (n: nat)
    ensures n > 0
  {
    if GoesOn(turns, polls) then 1 + Polled(turns[1..], polls - 1) else 1
  }

  /** The n-th question is answered with this status. */
  predicate Told(turns: seq<Qemu.Turn>, n: nat, status: string) {
    Ran(turns, n) && turns[n].says == Qemu.Return(status)
  }

  /** The first n questions are answered, and with none of the statuses a migration ends in. */
  predicate Going(turns: seq<Qemu.Turn>, n: nat) {
    forall k | 0 <= k < n ::
      Ran(turns, k) && turns[k].says.Return? && turns[k].says.value !in {"completed", "failed", "cancelled"}
  }

  /** The wait ends with the first status a migration ends in, or when time is up. */
  lemma {:induction false} PollEnds(turns: seq<Qemu.Turn>, polls: nat, n: nat)
    requires n <= polls && Going(turns, n)
    ensures Told(turns, n, "completed") ==> Poll(turns, polls) == Completed && Polled(turns, polls) == n + 1
    ensures forall v | v in {"failed", "cancelled"} && Told(turns, n, v) ::
              Poll(turns, polls) == Failed(v) && Polled(turns, polls) == n + 1
    ensures n == polls && Going(turns, n + 1) ==> Poll(turns, polls) == NotInTime && Polled(turns, polls) == n + 1
  {
    if n > 0 {
      GoingTail(turns, n);
      if Going(turns, n + 1) {
        GoingTail(turns, n + 1);
      }
      hide Going;
      var more := turns[1..];
      PollEnds(more, polls - 1, n - 1);
      assert forall v :: Told(turns, n, v) <==> Told(more, n - 1, v);
    } else if Going(turns, 1) {
      GoingTail(turns, 1);
    }
  }

  lemma GoingTail(turns: seq<Qemu.Turn>, n: nat)
    requires n > 0 && Going(turns, n)
    ensures Ran(turns, 0) && turns[0].says.Return?
    ensures turns[0].says.value != "completed" && turns[0].says.value != "failed" && turns[0].says.value != "cancelled"
    ensures Going(turns[1..], n - 1)
  {
    assert Ran(turns, 0) && turns[0].says.value !in {"completed", "failed", "cancelled"};
    var more := turns[1..];
    forall k | 0 <= k < n - 1
      ensures Ran(more, k) && more[k].says.Return? && more[k].says.value !in {"completed", "failed", "cancelled"}
    {
      assert Ran(turns, k + 1) && more[k] == turns[k + 1];
    }
  }

  lemma PollEndsAll(turns: seq<Qemu.Turn>, polls: nat)
    ensures forall n: nat | n <= polls && Going(turns, n) && Told(turns, n, "completed") ::
              Poll(turns, polls) == Completed && Polled(turns, polls) == n + 1 && n < |turns|
    ensures forall n: nat, v | n <= polls && Going(turns, n) && v in {"failed", "cancelled"} && Told(turns, n, v) ::
              Poll(turns, polls) == Failed(v) && Polled(turns, polls) == n + 1 && n < |turns|
    ensures Going(turns, polls + 1) ==>
              Poll(turns, polls) == NotInTime && Polled(turns, polls) == polls + 1 && polls < |turns|
  {
    forall n: nat | n <= polls && Going(turns, n)
      ensures Told(turns, n, "completed") ==> Poll(turns, polls) == Completed && Polled(turns, polls) == n + 1
      ensures forall v | v in {"failed", "cancelled"} && Told(turns, n, v) ::
                Poll(turns, polls) == Failed(v) && Polled(turns, polls) == n + 1
    {
      PollEnds(turns, polls, n);
    }
    if Going(turns, polls + 1) {
      assert Ran(turns, polls);
      PollEnds(turns, polls, polls);
    }
  }

  function Asking(n: nat): seq<Qemu.Command> { if n == 0 then [] else Asking(n - 1) + [Qemu.QueryMigrate] }

  function Drop(turns: seq<Qemu.Turn>, n: nat): seq<Qemu.Turn> { if n <= |turns| then turns[n..] else [] }

  lemma {:induction false} AskingIs(n: nat)
    ensures |Asking(n)| == n && forall c | c in Asking(n) :: c == Qemu.QueryMigrate
  {
    if n > 0 {
      AskingIs(n - 1);
    }
  }

  /** How waiting ends and what it sends, for any number of questions there is time for: the first status
      a migration ends in ends it, and nothing is asked after that. */
  ghost predicate WaitEnds(turns: seq<Qemu.Turn>, polls: nat, r: Migration, sent: seq<Qemu.Command>) {
    && (forall n: nat | n <= polls && Going(turns, n) && Told(turns, n, "completed") ::
          r == Completed && sent == Asking(n + 1))
    && (forall n: nat, v | n <= polls && Going(turns, n) && v in {"failed", "cancelled"} && Told(turns, n, v) ::
          r == Failed(v) && sent == Asking(n + 1))
    && (Going(turns, polls + 1) ==> r == NotInTime && sent == Asking(polls + 1))
  }

  lemma WaitEndsSo(turns: seq<Qemu.Turn>, polls: nat)
    ensures WaitEnds(turns, polls, Poll(turns, polls), Upto(Asking(Polled(turns, polls)), turns))
  {
    PollEndsAll(turns, polls);
    AskingIs(Polled(turns, polls));
    hide Poll, Polled, Asking, Going, Told;
  }

  /** waitMigration: asked again until it is over or the deadline passes, and over only when QEMU has
      said so in reply to that question. */
  method WaitMigration(conn: QmpConn, polls: nat) returns (r: Migration)
    requires conn.Idle()
    modifies conn, conn.c
    ensures conn.Idle() && old(conn.c.log) <= conn.c.log
    ensures r == Poll(old(conn.c.turns), polls)
    ensures conn.c.turns == Drop(old(conn.c.turns), Polled(old(conn.c.turns), polls))
    ensures SentIn(conn.c.log[|old(conn.c.log)|..]) ==
            Upto(Asking(Polled(old(conn.c.turns), polls)), old(conn.c.turns))
    ensures WaitEnds(old(conn.c.turns), polls, r, SentIn(conn.c.log[|old(conn.c.log)|..]))
    ensures r == Completed ==> Answered(conn.c.log[|old(conn.c.log)|..], Qemu.QueryMigrate, "completed")
  {
    hide Around, Qemu.Sound, DeletedIn, Qemu.Later, Qemu.NoAnswer, InTurn, Exchange, SentIn, Answered, Qemu.Truthful,
         WaitEnds;
    ghost var log0, turns := conn.c.log, conn.c.turns;
    WaitEndsSo(turns, polls);
    NothingWasSent();
    assert log0[|log0|..] == [];
    var left := polls;
    ghost var n: nat := 0;
    while true
      invariant conn.Idle() && log0 <= conn.c.log && SentIn(conn.c.log[|log0|..]) == Asking(n)
      invariant n <= |turns| && conn.c.turns == turns[n..]
      invariant Poll(turns, polls) == Poll(turns[n..], left)
      invariant Polled(turns, polls) == n + Polled(turns[n..], left)
      decreases left
    {
      ghost var s1, log1, now := conn.c.qemu, conn.c.log, conn.c.turns;
      var reply, h := conn.Run(Qemu.QueryMigrate);
      SentNext(log0, log1, conn.c.log);
      AskedOnce(turns, n);
      if reply.Some? {
        PlainTurn(s1, Qemu.QueryMigrate, now[0], h, conn.c.qemu, conn.c.inbox);
      }
      if reply.None? || reply.value.Error? {
        return NoReply(reply);
      }
      if reply.value.value == "completed" {
        ExchangeIsAnswer(conn.c.log[|log1|..], Qemu.QueryMigrate, "completed");
        LastAnswer(log0, log1, conn.c.log, Qemu.QueryMigrate, "completed");
        return Completed;
      }
      if reply.value.value == "failed" || reply.value.value == "cancelled" {
        return Failed(reply.value.value);
      }
      if left == 0 {
        return NotInTime;
      }
      assert turns[n..][1..] == turns[n + 1..];
      left, n := left - 1, n + 1;
    }
  }

  lemma LastAnswer(log0: seq<Entry>, log1: seq<Entry>, log2: seq<Entry>, c: Qemu.Command, value: string)
    requires log0 <= log1 <= log2 && Answered(log2[|log1|..], c, value)
    ensures Answered(log2[|log0|..], c, value)
  {
    hide Answered;
    assert log2[|log0|..] == log1[|log0|..] + log2[|log1|..] + [];
    AnsweredWithin(log1[|log0|..], log2[|log1|..], [], c, value);
  }

  lemma AskedOnce(turns: seq<Qemu.Turn>, n: nat)
    requires n <= |turns|
    ensures Asking(n) + (if turns[n..] == [] then [] else [Qemu.QueryMigrate]) == Upto(Asking(n + 1), turns)
    ensures Next(turns[n..]) == Drop(turns, n + 1)
  {
    AskingIs(n);
    AskingIs(n + 1);
  }

  lemma {:induction false} CompletedRan(turns: seq<Qemu.Turn>, polls: nat)
    requires Poll(turns, polls) == Completed
    ensures Polled(turns, polls) <= |turns|
  {
    if GoesOn(turns, polls) {
      CompletedRan(turns[1..], polls - 1);
    }
  }

  lemma OnlyPlanned(plan: seq<Qemu.Command>, turns: seq<Qemu.Turn>)
    ensures forall c | c in Upto(plan, turns) :: c in plan
  {
  }

  // ----- save

  /** Connecting and one command that starts a migration. */
  method Start(conn: QmpConn, command: Qemu.Command) returns (r: Outcome)
    requires conn.Idle() && Plain(command)
    modifies conn, conn.c
    ensures conn.Idle() && old(conn.c.log) <= conn.c.log
    ensures r == Started(old(conn.c.turns))
    ensures r == Done ==> conn.c.turns == old(conn.c.turns)[2..]
    ensures SentIn(conn.c.log[|old(conn.c.log)|..]) == Upto(StartSends(r, command), old(conn.c.turns))
  {
    hide Around, Qemu.Sound, DeletedIn, Qemu.Later, InTurn, Exchange, SentIn, Plain, Qemu.Truthful, Qemu.NoAnswer;
    ghost var log0 := conn.c.log;
    var ok, _ := Connect(conn);
    ghost var s1, log1, turns := conn.c.qemu, conn.c.log, conn.c.turns;
    if !ok {
      return NoMonitor;
    }
    var reply, h := conn.Run(command);
    SentNext(log0, log1, conn.c.log);
    if reply.Some? {
      PlainTurn(s1, command, turns[0], h, conn.c.qemu, conn.c.inbox);
    }
    return if reply.None? || reply.value.Error? then First else Done;
  }

  function Started(turns: seq<Qemu.Turn>): Outcome {
    if !Ran(turns, 0) || turns[0].says.Error? then NoMonitor
    else if !Ran(turns, 1) || turns[1].says.Error? then First
    else Done
  }

  function StartSends(r: Outcome, command: Qemu.Command): seq<Qemu.Command> {
    if r == NoMonitor then [Qemu.Capabilities] else [Qemu.Capabilities, command]
  }

  /** How save ends, from what QEMU will say. */
  function SaveAnswer(turns: seq<Qemu.Turn>, polls: nat): Outcome {
    if Started(turns) != Done then Started(turns)
    else if Poll(turns[2..], polls) != Completed then Waiting
    else Done
  }

  /** What a migration sends until it ends so, but for what follows it when it is completed. */
  function MigrationSends(r: Outcome, command: Qemu.Command, turns: seq<Qemu.Turn>, polls: nat): seq<Qemu.Command> {
    if r == NoMonitor || r == First || |turns| < 2 then StartSends(r, command)
    else [Qemu.Capabilities, command] + Asking(Polled(turns[2..], polls))
  }

  /** A migration that is completed sent all it meant to, and what follows is sent if there is a turn
      for it. */
  lemma MigrationIsSent(command: Qemu.Command, last: Qemu.Command, turns: seq<Qemu.Turn>, polls: nat)
    requires SaveAnswer(turns, polls) == Done
    ensures |turns| >= 2 && AfterMigration(turns, polls) == Drop(turns[2..], Polled(turns[2..], polls))
    ensures var sends := MigrationSends(Done, command, turns, polls);
            && Upto(sends, turns) == sends
            && sends + (if AfterMigration(turns, polls) == [] then [] else [last]) == Upto(sends + [last], turns)
  {
    CompletedRan(turns[2..], polls);
    AskingIs(Polled(turns[2..], polls));
    hide Asking, Polled, Poll;
    var sends := MigrationSends(Done, command, turns, polls);
    assert |sends| <= |turns|;
    if |sends| == |turns| {
      assert (sends + [last])[..|turns|] == sends;
    }
  }

  lemma SaveAnswerIs(turns: seq<Qemu.Turn>, polls: nat)
    ensures SaveAnswer(turns, polls) in {NoMonitor, First, Waiting, Done}
  {
    hide Poll;
  }

  /** QEMU says yes to the n-th command. */
  predicate Granted(turns: seq<Qemu.Turn>, n: nat) { Ran(turns, n) && turns[n].says.Return? }

  /** QEMU takes the connection and the command, and then its first n answers to the question are none
      that end a migration. */
  predicate GoingAfterStart(turns: seq<Qemu.Turn>, n: nat) {
    Granted(turns, 0) && Granted(turns, 1) && Going(turns[2..], n)
  }

  /** Of the answers there is time for, the n-th is the first to end the migration, with this status. */
  predicate FirstEnd(turns: seq<Qemu.Turn>, polls: nat, n: nat, status: string) {
    n <= polls && GoingAfterStart(turns, n) && Told(turns[2..], n, status)
  }

  /** How a migration ends that is not completed, and what has then been sent: a refusal ends it at once, a
      failure at the answer that says so, and the deadline after the last question. */
  ghost predicate Stops(turns: seq<Qemu.Turn>, polls: nat, command: Qemu.Command, r: Outcome,
                        sent: seq<Qemu.Command>)
  {
    var start := [Qemu.Capabilities, command];
    && (!Granted(turns, 0) ==> r == NoMonitor && sent == Upto([Qemu.Capabilities], turns))
    && (Granted(turns, 0) && !Granted(turns, 1) ==> r == First && sent == Upto(start, turns))
    && (forall n: nat, v | v in {"failed", "cancelled"} && FirstEnd(turns, polls, n, v) ::
          r == Waiting && sent == start + Asking(n + 1))
    && (GoingAfterStart(turns, polls + 1) ==> r == Waiting && sent == start + Asking(polls + 1))
  }

  lemma MigrationEnds(turns: seq<Qemu.Turn>, polls: nat, command: Qemu.Command)
    ensures SaveAnswer(turns, polls) != Done ==>
              Stops(turns, polls, command, SaveAnswer(turns, polls),
                    Upto(MigrationSends(SaveAnswer(turns, polls), command, turns, polls), turns))
    ensures SaveAnswer(turns, polls) == Done ==> forall r, sent :: Stops(turns, polls, command, r, sent)
    ensures forall n: nat | FirstEnd(turns, polls, n, "completed") ::
              && SaveAnswer(turns, polls) == Done && n + 3 <= |turns| && AfterMigration(turns, polls) == turns[n + 3..]
              && MigrationSends(Done, command, turns, polls) == [Qemu.Capabilities, command] + Asking(n + 1)
  {
    hide Asking, Poll, Polled, Going, Stops, FirstEnd;
    if Granted(turns, 0) && Granted(turns, 1) {
      StartedSo(turns, polls, command);
      hide SaveAnswer, MigrationSends, AfterMigration;
      forall n: nat | FirstEnd(turns, polls, n, "completed")
        ensures n + 3 <= |turns| && Poll(turns[2..], polls) == Completed && Polled(turns[2..], polls) == n + 1
      {
        FirstEndPolls(turns, polls, n, "completed");
      }
      StopsSo(turns, polls, command);
    } else {
      NotStarted(turns, polls, command);
    }
  }

  lemma StartedSo(turns: seq<Qemu.Turn>, polls: nat, command: Qemu.Command)
    requires Granted(turns, 0) && Granted(turns, 1)
    ensures SaveAnswer(turns, polls) == if Poll(turns[2..], polls) == Completed then Done else Waiting
    ensures forall r | r == Done || r == Waiting ::
              MigrationSends(r, command, turns, polls) ==
              [Qemu.Capabilities, command] + Asking(Polled(turns[2..], polls))
    ensures AfterMigration(turns, polls) == Drop(turns[2..], Polled(turns[2..], polls))
  {
    hide Poll, Polled, Asking;
  }

  lemma NotStarted(turns: seq<Qemu.Turn>, polls: nat, command: Qemu.Command)
    requires !Granted(turns, 0) || !Granted(turns, 1)
    ensures SaveAnswer(turns, polls) != Done
    ensures Stops(turns, polls, command, SaveAnswer(turns, polls),
                  Upto(MigrationSends(SaveAnswer(turns, polls), command, turns, polls), turns))
    ensures forall n: nat :: !FirstEnd(turns, polls, n, "completed")
  {
    hide Poll, Polled, Asking, Going;
  }

  lemma FirstEndPolls(turns: seq<Qemu.Turn>, polls: nat, n: nat, status: string)
    requires FirstEnd(turns, polls, n, status) && status in {"completed", "failed", "cancelled"}
    ensures n + 3 <= |turns| && Polled(turns[2..], polls) == n + 1
    ensures Poll(turns[2..], polls) == if status == "completed" then Completed else Failed(status)
  {
    hide Poll, Polled, Going;
    PollEndsAll(turns[2..], polls);
  }

  lemma StopsSo(turns: seq<Qemu.Turn>, polls: nat, command: Qemu.Command)
    requires Granted(turns, 0) && Granted(turns, 1)
    ensures Poll(turns[2..], polls) == Completed ==> forall r, sent :: Stops(turns, polls, command, r, sent)
    ensures Poll(turns[2..], polls) != Completed ==>
              Stops(turns, polls, command, Waiting,
                    Upto([Qemu.Capabilities, command] + Asking(Polled(turns[2..], polls)), turns))
  {
    hide Asking, Poll, Polled, Going, FirstEnd;
    forall n: nat, v | v in {"failed", "cancelled"} && FirstEnd(turns, polls, n, v)
      ensures Poll(turns[2..], polls) == Failed(v) && Polled(turns[2..], polls) == n + 1 && n + 3 <= |turns|
    {
      FirstEndPolls(turns, polls, n, v);
    }
    if GoingAfterStart(turns, polls + 1) {
      PollEndsAll(turns[2..], polls);
    }
    AskingIs(Polled(turns[2..], polls));
  }

  /** save, with the path already made absolute: a VM is told to quit only once QEMU has answered a
      query-migrate that its state is written. */
  method Save(m: Monitor, path: string, polls: nat) returns (r: Outcome)
    requires Qemu.Sound(m.qemu) && m.inbox == []
    modifies m
    ensures old(m.log) <= m.log && r == SaveAnswer(old(m.turns), polls)
    ensures SentIn(m.log[|old(m.log)|..]) ==
            Upto(MigrationSends(r, Qemu.Migrate("file:" + path), old(m.turns), polls) +
                 (if r == Done then [Qemu.Quit] else []), old(m.turns))
    ensures Stops(old(m.turns), polls, Qemu.Migrate("file:" + path), r, SentIn(m.log[|old(m.log)|..]))
    ensures forall n: nat | FirstEnd(old(m.turns), polls, n, "completed") ::
              r == Done &&
              SentIn(m.log[|old(m.log)|..]) ==
              Upto([Qemu.Capabilities, Qemu.Migrate("file:" + path)] + Asking(n + 1) + [Qemu.Quit], old(m.turns))
    ensures OnlyAfter(m.log[|old(m.log)|..], Qemu.Quit, Qemu.QueryMigrate, "completed")
    ensures r == Done ==> Answered(m.log[|old(m.log)|..], Qemu.QueryMigrate, "completed")
  {
    hide Around, Qemu.Sound, DeletedIn, Qemu.Later, InTurn, Exchange, SentIn, Answered, OnlyAfter, Poll, Polled, Asking,
         Qemu.Truthful, SaveAnswer, MigrationSends, Drop, Stops, FirstEnd, AfterMigration;
    ghost var log0, turns := m.log, m.turns;
    MigrationEnds(turns, polls, Qemu.Migrate("file:" + path));
    var conn := new QmpConn(m);
    var over;
    r, over := Migrate(conn, Qemu.Migrate("file:" + path), Qemu.Quit, polls);
    ghost var log2 := m.log;
    NeverSent(log2[|log0|..], Qemu.Quit, Qemu.QueryMigrate, "completed");
    ghost var sends := MigrationSends(r, Qemu.Migrate("file:" + path), turns, polls);
    if !over {
      assert sends + [] == sends;
      return;
    }
    MigrationIsSent(Qemu.Migrate("file:" + path), Qemu.Quit, turns, polls);
    var _, _ := conn.Run(Qemu.Quit);
    SentNext(log0, log2, m.log);
    FollowsAnswer(log2[|log0|..], m.log[|log2|..], Qemu.Quit, Qemu.QueryMigrate, "completed");
    AnsweredWithin([], log2[|log0|..], m.log[|log2|..], Qemu.QueryMigrate, "completed");
    assert [] + log2[|log0|..] + m.log[|log2|..] == m.log[|log0|..];
  }

  /** What save and restore have in common: a migration started and waited for. other is a command it
      never sends. */
  method Migrate(conn: QmpConn, command: Qemu.Command, ghost other: Qemu.Command, polls: nat)
    returns (r: Outcome, over: bool)
    requires conn.Idle() && Plain(command) && other !in {Qemu.Capabilities, command, Qemu.QueryMigrate}
    modifies conn, conn.c
    ensures conn.Idle() && old(conn.c.log) <= conn.c.log
    ensures r == SaveAnswer(old(conn.c.turns), polls) && (over <==> r == Done)
    ensures SentIn(conn.c.log[|old(conn.c.log)|..]) ==
            Upto(MigrationSends(r, command, old(conn.c.turns), polls), old(conn.c.turns))
    ensures over ==> var turns := old(conn.c.turns); conn.c.turns == Drop(turns[2..], Polled(turns[2..], polls))
    ensures over ==> Answered(conn.c.log[|old(conn.c.log)|..], Qemu.QueryMigrate, "completed")
    ensures Sent(other) !in conn.c.log[|old(conn.c.log)|..]
  {
    hide Around, Qemu.Sound, DeletedIn, Qemu.Later, InTurn, Exchange, SentIn, Answered, Poll, Polled, Asking, Plain,
         Qemu.Truthful, Qemu.NoAnswer;
    ghost var log0, turns := conn.c.log, conn.c.turns;
    r := Start(conn, command);
    ghost var log1 := conn.c.log;
    SentInHas(log1[|log0|..], other);
    over := false;
    if r != Done {
      return;
    }
    var end := WaitMigration(conn, polls);
    SentNext(log0, log1, conn.c.log);
    AskingIs(Polled(turns[2..], polls));
    OnlyPlanned(Asking(Polled(turns[2..], polls)), turns[2..]);
    SentInHas(conn.c.log[|log0|..], other);
    if end != Completed {
      return Waiting, over;
    }
    LastAnswer(log0, log1, conn.c.log, Qemu.QueryMigrate, "completed");
    return Done, true;
  }

  // ----- restore

  /** What is left of the script when the migration of a restore is over. */
  function AfterMigration(turns: seq<Qemu.Turn>, polls: nat): seq<Qemu.Turn> {
    if |turns| < 2 then [] else Drop(turns[2..], Polled(turns[2..], polls))
  }

  /** How the end of restore comes out, from what QEMU will say. */
  function ResumeAnswer(turns: seq<Qemu.Turn>): Outcome {
    if !Ran(turns, 0) || turns[0].says.Error? then Second
    else if turns[0].says.value == "running" then Done
    else if !Ran(turns, 1) || turns[1].says.Error? then Third
    else Done
  }

  /** What the end of restore sends: cont exactly when QEMU said the VM is in any other state. */
  function ResumeSends(turns: seq<Qemu.Turn>): seq<Qemu.Command> {
    [Qemu.QueryStatus] +
    (if Ran(turns, 0) && turns[0].says.Return? && turns[0].says.value != "running" then [Qemu.Cont] else [])
  }

  /** How restore ends once its state is loaded, and what it has then sent, from what the turns left say:
      cont unless the VM is running already. */
  ghost predicate Restored(left: seq<Qemu.Turn>, before: seq<Qemu.Command>, r: Outcome, sent: seq<Qemu.Command>) {
    && (!Granted(left, 0) ==> r == Second && sent == before + Upto([Qemu.QueryStatus], left))
    && (Told(left, 0, "running") ==> r == Done && sent == before + [Qemu.QueryStatus])
    && (Granted(left, 0) && !Told(left, 0, "running") ==>
          && r == (if Granted(left, 1) then Done else Third)
          && sent == before + Upto([Qemu.QueryStatus, Qemu.Cont], left))
  }

  lemma RestoredSo(left: seq<Qemu.Turn>, before: seq<Qemu.Command>)
    ensures Restored(left, before, ResumeAnswer(left), before + Upto(ResumeSends(left), left))
  {
    assert [Qemu.QueryStatus] + [] == [Qemu.QueryStatus] && [Qemu.QueryStatus] + [Qemu.Cont] ==
           [Qemu.QueryStatus, Qemu.Cont];
  }

  /** restore: a VM is told to run only once QEMU has answered a query-migrate that its state is loaded
      and a query-status that it is not running; and then it is. was is the state it came back in. */
  method Restore(m: Monitor, path: string, polls: nat) returns (r: Outcome, ghost was: string)
    requires Qemu.Sound(m.qemu) && m.inbox == []
    modifies m
    ensures old(m.log) <= m.log
    ensures var turns := old(m.turns);
            r == if SaveAnswer(turns, polls) != Done then SaveAnswer(turns, polls)
                 else ResumeAnswer(AfterMigration(turns, polls))
    ensures var turns := old(m.turns);
            SentIn(m.log[|old(m.log)|..]) ==
            Upto(MigrationSends(SaveAnswer(turns, polls), Qemu.MigrateIncoming("file:" + path), turns, polls), turns) +
            (if SaveAnswer(turns, polls) != Done then []
             else Upto(ResumeSends(AfterMigration(turns, polls)), AfterMigration(turns, polls)))
    ensures Stops(old(m.turns), polls, Qemu.MigrateIncoming("file:" + path), r, SentIn(m.log[|old(m.log)|..]))
    ensures forall n: nat | FirstEnd(old(m.turns), polls, n, "completed") ::
              Restored(if n + 3 <= |old(m.turns)| then old(m.turns)[n + 3..] else [],
                       [Qemu.Capabilities, Qemu.MigrateIncoming("file:" + path)] + Asking(n + 1), r,
                       SentIn(m.log[|old(m.log)|..]))
    ensures OnlyAfter(m.log[|old(m.log)|..], Qemu.Cont, Qemu.QueryMigrate, "completed")
    ensures OnlyAfter(m.log[|old(m.log)|..], Qemu.Cont, Qemu.QueryStatus, was)
    ensures r == Done || r == Third ==>
              var log := m.log[|old(m.log)|..];
              && Answered(log, Qemu.QueryMigrate, "completed") && Answered(log, Qemu.QueryStatus, was)
              && (r == Done ==> (Sent(Qemu.Cont) in log <==> was != "running"))
  {
    hide Around, Qemu.Sound, DeletedIn, Qemu.Later, InTurn, Exchange, SentIn, Answered, OnlyAfter, Poll, Polled, Asking,
         Qemu.Truthful, MigrationSends, ResumeSends, ResumeAnswer, SaveAnswer, Drop, Stops, FirstEnd, AfterMigration,
         Restored;
    ghost var log0, turns := m.log, m.turns;
    MigrationEnds(turns, polls, Qemu.MigrateIncoming("file:" + path));
    RestoredSo(AfterMigration(turns, polls), MigrationSends(Done, Qemu.MigrateIncoming("file:" + path), turns, polls));
    SaveAnswerIs(turns, polls);
    var conn := new QmpConn(m);
    was := "";
    var over;
    r, over := Migrate(conn, Qemu.MigrateIncoming("file:" + path), Qemu.Cont, polls);
    ghost var log2 := m.log;
    NeverSent(log2[|log0|..], Qemu.Cont, Qemu.QueryMigrate, "completed");
    if !over {
      NeverSent(log2[|log0|..], Qemu.Cont, Qemu.QueryStatus, was);
      return;
    }
    MigrationIsSent(Qemu.MigrateIncoming("file:" + path), Qemu.Cont, turns, polls);
    r, was := Resume(conn);
    ghost var before, more := log2[|log0|..], m.log[|log2|..];
    SentNext(log0, log2, m.log);
    FollowsAnswer(before, more, Qemu.Cont, Qemu.QueryMigrate, "completed");
    ComesAfter(before, more, Qemu.Cont, Qemu.QueryStatus, was);
    AnsweredWithin([], before, more, Qemu.QueryMigrate, "completed");
    assert [] + before + more == m.log[|log0|..];
    if r == Done || r == Third {
      AnsweredWithin(before, more, [], Qemu.QueryStatus, was);
      assert before + more + [] == m.log[|log0|..];
    }
  }

  lemma ComesAfter(before: seq<Entry>, more: seq<Entry>, c: Qemu.Command, q: Qemu.Command, value: string)
    requires Sent(c) !in before && OnlyAfter(more, c, q, value)
    ensures OnlyAfter(before + more, c, q, value)
  {
    hide Answered;
    var all := before + more;
    forall p | 0 <= p < |all| && all[p] == Sent(c) ensures Answered(all[..p], q, value) {
      NotBefore(before, more, p, c);
      assert more[p - |before|] == Sent(c);
      AnsweredWithin(before, more[..p - |before|], [], q, value);
      assert all[..p] == before + more[..p - |before|] + [];
    }
  }

  /** The end of restore: what state the VM came back in, and cont unless it runs. */
  method Resume(conn: QmpConn) returns (r: Outcome, ghost was: string)
    requires conn.Idle()
    modifies conn, conn.c
    ensures old(conn.c.log) <= conn.c.log && r == ResumeAnswer(old(conn.c.turns))
    ensures SentIn(conn.c.log[|old(conn.c.log)|..]) == Upto(ResumeSends(old(conn.c.turns)), old(conn.c.turns))
    ensures OnlyAfter(conn.c.log[|old(conn.c.log)|..], Qemu.Cont, Qemu.QueryStatus, was)
    ensures r == Done || r == Third ==>
              var log := conn.c.log[|old(conn.c.log)|..];
              Answered(log, Qemu.QueryStatus, was) && (r == Done ==> (Sent(Qemu.Cont) in log <==> was != "running"))
  {
    hide Around, Qemu.Sound, DeletedIn, Qemu.Later, InTurn, Exchange, SentIn, Answered, OnlyAfter, Qemu.Truthful,
         Qemu.NoAnswer;
    was := "";
    ghost var s0, log0, turns := conn.c.qemu, conn.c.log, conn.c.turns;
    var status, h := conn.Run(Qemu.QueryStatus);
    ghost var s1, log1 := conn.c.qemu, conn.c.log;
    SentInHas(log1[|log0|..], Qemu.Cont);
    NeverSent(log1[|log0|..], Qemu.Cont, Qemu.QueryStatus, was);
    if status.Some? {
      PlainTurn(s0, Qemu.QueryStatus, turns[0], h, s1, conn.c.inbox);
    }
    if status.None? || status.value.Error? {
      return Second, was;
    }
    was := status.value.value;
    ExchangeIsAnswer(log1[|log0|..], Qemu.QueryStatus, was);
    NeverSent(log1[|log0|..], Qemu.Cont, Qemu.QueryStatus, was);
    if status.value.value != "running" {
      var started, g := conn.Run(Qemu.Cont);
      SentNext(log0, log1, conn.c.log);
      ghost var log := conn.c.log[|log0|..];
      FollowsAnswer(log1[|log0|..], conn.c.log[|log1|..], Qemu.Cont, Qemu.QueryStatus, was);
      AnsweredWithin([], log1[|log0|..], conn.c.log[|log1|..], Qemu.QueryStatus, was);
      assert [] + log1[|log0|..] + conn.c.log[|log1|..] == log;
      SentInHas(log, Qemu.Cont);
      if started.Some? {
        PlainTurn(s1, Qemu.Cont, turns[1], g, conn.c.qemu, conn.c.inbox);
      }
      if started.None? || started.value.Error? {
        return Third, was;
      }
    }
    return Done, was;
  }
}
