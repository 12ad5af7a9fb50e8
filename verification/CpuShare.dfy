/** Who had each CPU while an initcall ran, from a trace of scheduler events. Times are whole
    microseconds. */
module CpuShare {
  import opened Text

  datatype Kind =
    | Start(func: string)
    | Finish(func: string)
    | Switch(next: Option<(string, string)>)
    | WorkStart(func_: Option<string>)
    | WorkEnd

  /** A line of the trace: a task and pid it is printed for, its CPU, its time, and its event. */
  datatype Line = Line(task: string, pid: string, cpu: string, ts: int, kind: Kind)

  /** What a CPU runs, and up to when that has been accounted for. */
  datatype Cpu = Cpu(task: string, pid: string, at: int)

  const WINDOW := "(window)"

  /** What is before the first slash, or all of it. */
  function TaskName(comm: string): string {
    match Cut(comm, '/') case None => comm case Some((before, _)) => before
  }

  function NameOf(c: Cpu, work: map<string, string>): string {
    if c.pid in work && work[c.pid] != "" then TaskName(c.task) + ":" + work[c.pid] else TaskName(c.task)
  }

  // ----- what is accounted, as a list

  /** A stretch of one CPU's time put to a name's account. */
  datatype Segment = Segment(cpu: string, from: int, to: int, name: string)

  /** Where the walk is: work items, CPUs, whether the window is open and since when, what has been
      accounted, and when the window closed, if it has. */
  datatype State = State(work: map<string, string>, cpus: map<string, Cpu>, open: bool, start: int,
                         log: seq<Segment>, finish: Option<int>)

  const BEGIN := State(map[], map[], false, 0, [], None)

  function CpuOf(st: State, l: Line): Cpu {
    if l.cpu in st.cpus then st.cpus[l.cpu] else Cpu(l.task, l.pid, l.ts)
  }

  /** account. */
  function Accounted(st: State, cpu: string, c: Cpu, until: int): seq<Segment> {
    if st.open && until > c.at then [Segment(cpu, Max(c.at, st.start), until, NameOf(c, st.work))] else []
  }

  function Step(st: State, l: Line, initcall: string): State {
    if st.finish.Some? then st else
      var c := CpuOf(st, l);
      var seen := st.(cpus := st.cpus[l.cpu := c]);
      match l.kind
      case Start(func) =>
        if func == initcall then
          seen.(open := true, start := l.ts, cpus := seen.cpus[l.cpu := Cpu(l.task, l.pid, l.ts)])
        else seen
      case Finish(func) =>
        if st.open && func == initcall then seen.(log := st.log + Accounted(st, l.cpu, c, l.ts), finish := Some(l.ts))
        else seen
      case Switch(next) =>
        var now := match next case None => c.(at := l.ts) case Some((task, pid)) => Cpu(task, pid, l.ts);
        seen.(log := st.log + Accounted(st, l.cpu, c, l.ts), cpus := seen.cpus[l.cpu := now])
      case WorkStart(func) =>
        seen.(log := st.log + Accounted(st, l.cpu, c, l.ts), cpus := seen.cpus[l.cpu := c.(at := l.ts)],
              work := match func case Some(f) => st.work[l.pid := f] case None => st.work - {l.pid})
      case WorkEnd =>
        seen.(log := st.log + Accounted(st, l.cpu, c, l.ts), cpus := seen.cpus[l.cpu := c.(at := l.ts)],
              work := st.work - {l.pid})
  }

  function After(trace: seq<Line>, initcall: string, n: nat): State
    requires n <= |trace|
  {
    if n == 0 then BEGIN else Step(After(trace, initcall, n - 1), trace[n - 1], initcall)
  }

  /** The accounts: each name's time. */
  function Shares(log: seq<Segment>): map<string, int> {
    if log == [] then map[] else
      var m, s := Shares(log[..|log| - 1]), log[|log| - 1];
      m[s.name := (if s.name in m then m[s.name] else 0) + (s.to - s.from)]
  }

  /** What cpuShare answers for a whole trace. */
  function Answer(st: State): map<string, int> {
    if st.finish.Some? then Shares(st.log)[WINDOW := st.finish.value - st.start] else map[]
  }

  /** cpuShare. */
  method CpuShare(trace: seq<Line>, initcall: string) returns (share: map<string, int>)
    ensures share == Answer(After(trace, initcall, |trace|))
  {
    hide NameOf, After, Shares, Accounted;
    var work: map<string, string> := map[];
    var cpus: map<string, Cpu> := map[];
    share := map[];
    var open, start := false, 0;
    ghost var log: seq<Segment> := [];
    NothingYet(trace, initcall);
    for k := 0 to |trace|
      invariant After(trace, initcall, k) == State(work, cpus, open, start, log, None)
      invariant share == Shares(log)
    {
      var l := trace[k];
      ghost var st := After(trace, initcall, k);
      OneMore(trace, initcall, k + 1);
      var c := if l.cpu in cpus then cpus[l.cpu] else Cpu(l.task, l.pid, l.ts);
      cpus := cpus[l.cpu := c];
      match l.kind {
        case Start(func) =>
          if func == initcall {
            open, start := true, l.ts;
            cpus := cpus[l.cpu := Cpu(l.task, l.pid, l.ts)];
          }
        case Finish(func) =>
          if open && func == initcall {
            share := Account(share, st, open, start, work, l.cpu, c, l.ts);
            log := log + Accounted(st, l.cpu, c, l.ts);
            share := share[WINDOW := l.ts - start];
            StaysFinished(trace, initcall, k + 1, |trace|);
            return;
          }
        case Switch(next) =>
          share := Account(share, st, open, start, work, l.cpu, c, l.ts);
          log := log + Accounted(st, l.cpu, c, l.ts);
          match next {
            case None => cpus := cpus[l.cpu := c.(at := l.ts)];
            case Some((task, pid)) => cpus := cpus[l.cpu := Cpu(task, pid, l.ts)];
          }
        case WorkStart(func) =>
          share := Account(share, st, open, start, work, l.cpu, c, l.ts);
          log := log + Accounted(st, l.cpu, c, l.ts);
          cpus := cpus[l.cpu := c.(at := l.ts)];
          match func {
            case Some(f) => work := work[l.pid := f];
            case None => work := work - {l.pid};
          }
        case WorkEnd =>
          share := Account(share, st, open, start, work, l.cpu, c, l.ts);
          log := log + Accounted(st, l.cpu, c, l.ts);
          cpus := cpus[l.cpu := c.(at := l.ts)];
          work := work - {l.pid};
      }
    }
    share := map[];
  }

  lemma NothingYet(trace: seq<Line>, initcall: string)
    ensures After(trace, initcall, 0) == BEGIN && Shares([]) == map[]
  {
  }

  lemma OneMore(trace: seq<Line>, initcall: string, n: nat)
    requires 0 < n <= |trace|
    ensures After(trace, initcall, n) == Step(After(trace, initcall, n - 1), trace[n - 1], initcall)
  {
  }

  /** account, into the shares of what st has accounted. */
  method Account(share: map<string, int>, ghost st: State, open: bool, start: int, work: map<string, string>,
                 cpu: string, c: Cpu, until: int)
    returns (out: map<string, int>)
    requires share == Shares(st.log) && open == st.open && start == st.start && work == st.work
    ensures out == Shares(st.log + Accounted(st, cpu, c, until))
  {
    out := share;
    assert st.log + [] == st.log;
    if open && until > c.at {
      var name := NameOf(c, work);
      ghost var s := Segment(cpu, Max(c.at, start), until, name);
      assert (st.log + [s])[..|st.log|] == st.log;
      out := out[name := (if name in out then out[name] else 0) + (until - Max(c.at, start))];
    }
  }

  lemma {:induction false} StaysFinished(trace: seq<Line>, initcall: string, n: nat, m: nat)
    requires n <= m <= |trace| && After(trace, initcall, n).finish.Some?
    ensures After(trace, initcall, m) == After(trace, initcall, n)
    decreases m
  {
    if n < m {
      StaysFinished(trace, initcall, n, m - 1);
    }
  }

  // ----- adding up

  /** The time put to any of some names. */
  function TimeIn(log: seq<Segment>, names: set<string>): int {
    if log == [] then 0 else
      var s := log[|log| - 1];
      TimeIn(log[..|log| - 1], names) + (if s.name in names then s.to - s.from else 0)
  }

  function NamesIn(log: seq<Segment>): set<string> { set s | s in log :: s.name }

  ghost function SumOver(m: map<string, int>, names: set<string>): int
    requires names <= m.Keys
  {
    if names == {} then 0 else
      var x :| x in names;
      m[x] + SumOver(m, names - {x})
  }

  lemma {:induction false} SharesAre(log: seq<Segment>)
    ensures Shares(log).Keys == NamesIn(log)
    ensures forall x | x in Shares(log) :: Shares(log)[x] == TimeIn(log, {x})
  {
    if log != [] {
      var rest, s := log[..|log| - 1], log[|log| - 1];
      SharesAre(rest);
      assert log == rest + [s];
      assert NamesIn(log) == NamesIn(rest) + {s.name};
      if s.name !in Shares(rest) {
        NoTime(rest, {s.name});
      }
    }
  }

  lemma {:induction false} NoTime(log: seq<Segment>, names: set<string>)
    requires NamesIn(log) !! names
    ensures TimeIn(log, names) == 0
  {
    if log != [] {
      var rest, s := log[..|log| - 1], log[|log| - 1];
      assert log == rest + [s];
      assert s in log && s.name in NamesIn(log);
      assert forall x | x in rest :: x in log;
      NoTime(rest, names);
    }
  }

  lemma {:induction false} TimeInSplits(log: seq<Segment>, x: string, names: set<string>)
    requires x in names
    ensures TimeIn(log, names) == TimeIn(log, {x}) + TimeIn(log, names - {x})
  {
    if log != [] {
      TimeInSplits(log[..|log| - 1], x, names);
    }
  }

  /** Shares add up to the time of their names. */
  lemma {:induction false} SumIsTime(log: seq<Segment>, m: map<string, int>, names: set<string>)
    requires names <= m.Keys && forall x | x in names :: m[x] == TimeIn(log, {x})
    ensures SumOver(m, names) == TimeIn(log, names)
    decreases |names|
  {
    if names == {} {
      NoTime(log, {});
    } else {
      var x :| x in names && SumOver(m, names) == m[x] + SumOver(m, names - {x});
      SumIsTime(log, m, names - {x});
      TimeInSplits(log, x, names);
    }
  }

  // ----- the walk through a window

  predicate InOrder(trace: seq<Line>) {
    forall i, j | 0 <= i < j < |trace| :: trace[i].ts <= trace[j].ts
  }

  predicate StartsIt(l: Line, initcall: string) { l.kind.Start? && l.kind.func == initcall }

  predicate FinishesIt(l: Line, initcall: string) { l.kind.Finish? && l.kind.func == initcall }

  /** The window of an initcall: its one start, and the first finish after it. */
  predicate IsWindow(trace: seq<Line>, initcall: string, s: nat, f: nat) {
    && s < f < |trace|
    && StartsIt(trace[s], initcall) && FinishesIt(trace[f], initcall)
    && (forall k | 0 <= k < f && k != s :: !StartsIt(trace[k], initcall))
    && (forall k | s < k < f :: !FinishesIt(trace[k], initcall))
  }

  lemma {:induction false} BeforeWindow(trace: seq<Line>, initcall: string, n: nat)
    requires n <= |trace| && forall k | 0 <= k < n :: !StartsIt(trace[k], initcall)
    ensures var st := After(trace, initcall, n); !st.open && st.log == [] && st.finish.None?
  {
    if n > 0 {
      BeforeWindow(trace, initcall, n - 1);
    }
  }

  /** Inside the window it stays open since its start, and every CPU is accounted for up to a moment
      no later than the last line. */
  lemma {:induction false} InsideWindow(trace: seq<Line>, initcall: string, s: nat, f: nat, n: nat)
    requires InOrder(trace) && IsWindow(trace, initcall, s, f) && s < n <= f
    ensures var st := After(trace, initcall, n);
            && st.open && st.start == trace[s].ts && st.finish.None?
            && forall c | c in st.cpus :: st.cpus[c].at <= trace[n - 1].ts
    decreases n
  {
    hide NameOf;
    if n == s + 1 {
      BeforeWindow(trace, initcall, s);
      CpusInThePast(trace, initcall, s);
    } else {
      InsideWindow(trace, initcall, s, f, n - 1);
    }
  }

  lemma {:induction false} CpusInThePast(trace: seq<Line>, initcall: string, n: nat)
    requires InOrder(trace) && n < |trace|
    ensures forall c | c in After(trace, initcall, n).cpus :: After(trace, initcall, n).cpus[c].at <= trace[n].ts
  {
    hide NameOf;
    if n > 0 {
      CpusInThePast(trace, initcall, n - 1);
    }
  }

  // ----- on one CPU nothing is lost

  predicate OneCpu(trace: seq<Line>) {
    forall i, j | 0 <= i < |trace| && 0 <= j < |trace| :: trace[i].cpu == trace[j].cpu
  }

  /** All the time accounted. */
  function Time(log: seq<Segment>): int {
    if log == [] then 0 else Time(log[..|log| - 1]) + (log[|log| - 1].to - log[|log| - 1].from)
  }

  lemma TimeAppend(log: seq<Segment>, more: seq<Segment>)
    requires |more| <= 1
    ensures Time(log + more) == Time(log) + (if more == [] then 0 else more[0].to - more[0].from)
  {
    if more != [] {
      assert (log + more)[..|log|] == log;
    } else {
      assert log + more == log;
    }
  }

  lemma {:induction false} OneCpuInside(trace: seq<Line>, initcall: string, s: nat, f: nat, n: nat)
    requires InOrder(trace) && OneCpu(trace) && IsWindow(trace, initcall, s, f) && s < n <= f
    ensures var st := After(trace, initcall, n);
            trace[s].cpu in st.cpus && st.cpus[trace[s].cpu].at >= st.start == trace[s].ts &&
            Time(st.log) == st.cpus[trace[s].cpu].at - st.start
    decreases n
  {
    hide NameOf, After;
    OneMore(trace, initcall, n);
    if n == s + 1 {
      BeforeWindow(trace, initcall, s);
    } else {
      InsideWindow(trace, initcall, s, f, n - 1);
      OneCpuInside(trace, initcall, s, f, n - 1);
      assert trace[n - 1].cpu == trace[s].cpu && trace[s].ts <= trace[n - 1].ts;
      OneCpuStep(After(trace, initcall, n - 1), trace[n - 1], initcall);
    }
  }

  lemma OneCpuStep(st: State, l: Line, initcall: string)
    requires st.open && st.finish.None? && !StartsIt(l, initcall) && !FinishesIt(l, initcall)
    requires l.cpu in st.cpus && st.start <= st.cpus[l.cpu].at <= l.ts && Time(st.log) == st.cpus[l.cpu].at - st.start
    ensures var next := Step(st, l, initcall);
            l.cpu in next.cpus && next.cpus[l.cpu].at >= next.start == st.start &&
                Time(next.log) == next.cpus[l.cpu].at - next.start
  {
    hide NameOf, Time;
    TimeAppend(st.log, Accounted(st, l.cpu, CpuOf(st, l), l.ts));
  }

  lemma WindowCloses(trace: seq<Line>, initcall: string, s: nat, f: nat)
    requires InOrder(trace) && IsWindow(trace, initcall, s, f)
    ensures var st, l := After(trace, initcall, f), trace[f];
            After(trace, initcall, |trace|) ==
            st.(cpus := st.cpus[l.cpu := CpuOf(st, l)], log := st.log + Accounted(st, l.cpu, CpuOf(st, l), l.ts),
                finish := Some(l.ts))
    ensures After(trace, initcall, |trace|).start == trace[s].ts
  {
    hide NameOf, Accounted;
    InsideWindow(trace, initcall, s, f, f);
    StaysFinished(trace, initcall, f + 1, |trace|);
  }

  lemma {:induction false} TimeOfAll(log: seq<Segment>, names: set<string>)
    requires NamesIn(log) <= names
    ensures TimeIn(log, names) == Time(log)
  {
    if log != [] {
      var rest, s := log[..|log| - 1], log[|log| - 1];
      assert log == rest + [s];
      assert s in log && s.name in NamesIn(log);
      assert forall x | x in rest :: x in log;
      TimeOfAll(rest, names);
    }
  }

  lemma SharesAddUp(st: State)
    requires st.finish.Some?
    ensures WINDOW in Answer(st)
    ensures SumOver(Answer(st), Answer(st).Keys - {WINDOW}) == Time(st.log) - TimeIn(st.log, {WINDOW})
  {
    hide Shares, TimeIn, Time, SumOver;
    SharesAre(st.log);
    var names := Answer(st).Keys - {WINDOW};
    SumIsTime(st.log, Answer(st), names);
    var all := names + {WINDOW};
    TimeOfAll(st.log, all);
    TimeInSplits(st.log, WINDOW, all);
    assert all - {WINDOW} == names;
  }

  predicate NamedWindow(task: string) { TaskName(task) == WINDOW }

  /** No task of the trace goes by the name of the window's total. */
  predicate NoTaskNamedWindow(trace: seq<Line>) {
    forall l | l in trace ::
      !NamedWindow(l.task) && (l.kind.Switch? && l.kind.next.Some? ==> !NamedWindow(l.kind.next.value.0))
  }

  predicate Working(pid: string, work: map<string, string>) { pid in work && work[pid] != "" }

  lemma NameIsWindow(c: Cpu, work: map<string, string>)
    ensures NameOf(c, work) == WINDOW <==> NamedWindow(c.task) && !Working(c.pid, work)
  {
    hide TaskName;
    var x := TaskName(c.task);
    if c.pid in work && work[c.pid] != "" {
      assert (x + ":" + work[c.pid])[|x|] == ':';
      assert forall i | 0 <= i < |WINDOW| :: WINDOW[i] != ':';
    }
  }

  // ----- who runs, read off the trace

  /** Whom the one CPU runs before line n of the window that line s opened: the last task switched
      to, or the one that made the initcall. */
  function Runner(trace: seq<Line>, s: nat, n: nat): (string, string)
    requires s < n <= |trace|
    decreases n
  {
    if n == s + 1 then (trace[s].task, trace[s].pid)
    else if trace[n - 1].kind.Switch? && trace[n - 1].kind.next.Some? then trace[n - 1].kind.next.value
    else Runner(trace, s, n - 1)
  }

  predicate Marks(l: Line) { l.kind.Switch? || l.kind.WorkStart? || l.kind.WorkEnd? }

  /** The time of the last line before n that an account is made at. */
  function Marked(trace: seq<Line>, s: nat, n: nat): int
    requires s < n <= |trace|
    decreases n
  {
    if n == s + 1 then trace[s].ts else if Marks(trace[n - 1]) then trace[n - 1].ts else Marked(trace, s, n - 1)
  }

  /** The work items under way before line n. */
  function Work(trace: seq<Line>, n: nat): map<string, string>
    requires n <= |trace|
  {
    if n == 0 then map[] else
      var l, work := trace[n - 1], Work(trace, n - 1);
      match l.kind
      case WorkStart(Some(f)) => work[l.pid := f]
      case WorkStart(None) => work - {l.pid}
      case WorkEnd => work - {l.pid}
      case _ => work
  }

  /** Time passed up to line n while a task called "(window)" ran, on nothing of its own. */
  predicate LostAt(trace: seq<Line>, s: nat, f: nat, n: nat)
    requires s < n <= f < |trace|
  {
    && (Marks(trace[n]) || n == f) && Marked(trace, s, n) < trace[n].ts
    && NamedWindow(Runner(trace, s, n).0) && !Working(Runner(trace, s, n).1, Work(trace, n))
  }

  predicate Lost(trace: seq<Line>, s: nat, f: nat)
    requires s < f < |trace|
  {
    exists n | s < n <= f :: LostAt(trace, s, f, n)
  }

  lemma {:induction false} WorkIs(trace: seq<Line>, initcall: string, s: nat, f: nat, n: nat)
    requires InOrder(trace) && IsWindow(trace, initcall, s, f) && n <= f
    ensures After(trace, initcall, n).work == Work(trace, n)
  {
    hide NameOf, After, Accounted;
    if n == 0 {
      NothingYet(trace, initcall);
    } else {
      WorkIs(trace, initcall, s, f, n - 1);
      OneMore(trace, initcall, n);
      if n <= s + 1 {
        BeforeWindow(trace, initcall, n - 1);
      } else {
        InsideWindow(trace, initcall, s, f, n - 1);
      }
    }
  }

  lemma {:induction false} RunnerIs(trace: seq<Line>, initcall: string, s: nat, f: nat, n: nat)
    requires InOrder(trace) && OneCpu(trace) && IsWindow(trace, initcall, s, f) && s < n <= f
    ensures var st, cpu := After(trace, initcall, n), trace[s].cpu;
            cpu in st.cpus && st.cpus[cpu] == Cpu(Runner(trace, s, n).0, Runner(trace, s, n).1, Marked(trace, s, n))
    decreases n
  {
    hide NameOf, After, Accounted;
    OneMore(trace, initcall, n);
    assert trace[n - 1].cpu == trace[s].cpu;
    if n == s + 1 {
      BeforeWindow(trace, initcall, s);
    } else {
      InsideWindow(trace, initcall, s, f, n - 1);
      RunnerIs(trace, initcall, s, f, n - 1);
    }
  }

  /** What line n accounts, if it accounts at all, is the window name's exactly when time is lost. */
  lemma AccountLoses(trace: seq<Line>, initcall: string, s: nat, f: nat, n: nat)
    requires InOrder(trace) && OneCpu(trace) && IsWindow(trace, initcall, s, f) && s < n <= f
    requires Marks(trace[n]) || n == f
    ensures var st, l := After(trace, initcall, n), trace[n];
            var more := TimeIn(Accounted(st, l.cpu, CpuOf(st, l), l.ts), {WINDOW});
            more >= 0 && (more > 0 <==> LostAt(trace, s, f, n))
  {
    hide NameOf, After, Runner, Marked, Work, NamedWindow;
    RunnerIs(trace, initcall, s, f, n);
    WorkIs(trace, initcall, s, f, n);
    InsideWindow(trace, initcall, s, f, n);
    OneCpuInside(trace, initcall, s, f, n);
    assert trace[n].cpu == trace[s].cpu;
    var st, l := After(trace, initcall, n), trace[n];
    NameIsWindow(CpuOf(st, l), st.work);
    var log := Accounted(st, l.cpu, CpuOf(st, l), l.ts);
    assert log != [] ==> log[..|log| - 1] == [];
  }

  lemma TimeInAppend(log: seq<Segment>, more: seq<Segment>, names: set<string>)
    requires |more| <= 1
    ensures TimeIn(log + more, names) == TimeIn(log, names) + TimeIn(more, names)
  {
    if more == [] {
      assert log + more == log;
    } else {
      assert (log + more)[..|log|] == log && more[..0] == [];
    }
  }

  lemma {:induction false} LostInside(trace: seq<Line>, initcall: string, s: nat, f: nat, n: nat)
    requires InOrder(trace) && OneCpu(trace) && IsWindow(trace, initcall, s, f) && s < n <= f
    ensures var lost := TimeIn(After(trace, initcall, n).log, {WINDOW});
            lost >= 0 && (lost > 0 <==> exists k | s < k < n :: LostAt(trace, s, f, k))
    decreases n
  {
    hide NameOf, After, Accounted, TimeIn, LostAt;
    OneMore(trace, initcall, n);
    if n == s + 1 {
      BeforeWindow(trace, initcall, s);
      NoTime([], {WINDOW});
    } else {
      InsideWindow(trace, initcall, s, f, n - 1);
      LostInside(trace, initcall, s, f, n - 1);
      var st, l := After(trace, initcall, n - 1), trace[n - 1];
      if Marks(l) {
        AccountLoses(trace, initcall, s, f, n - 1);
        StepAccounts(st, l, initcall);
        TimeInAppend(st.log, Accounted(st, l.cpu, CpuOf(st, l), l.ts), {WINDOW});
      } else {
        assert After(trace, initcall, n).log == st.log;
        assert !LostAt(trace, s, f, n - 1) by { NotMarked(trace, s, f, n - 1); }
      }
    }
  }

  lemma NotMarked(trace: seq<Line>, s: nat, f: nat, n: nat)
    requires s < n < f < |trace| && !Marks(trace[n])
    ensures !LostAt(trace, s, f, n)
  {
  }

  lemma StepAccounts(st: State, l: Line, initcall: string)
    requires st.finish.None? && Marks(l)
    ensures Step(st, l, initcall).log == st.log + Accounted(st, l.cpu, CpuOf(st, l), l.ts) &&
            |Accounted(st, l.cpu, CpuOf(st, l), l.ts)| <= 1
  {
    hide NameOf;
  }

  /** Conservation, exactly: on one CPU the shares of the tasks add up to the length of the window,
      if and only if no time passes in it while a task called "(window)" runs, whose share the
      window's own total overwrites. */
  lemma OneCpuConserves(trace: seq<Line>, initcall: string, s: nat, f: nat)
    requires InOrder(trace) && OneCpu(trace) && IsWindow(trace, initcall, s, f)
    ensures var share := Answer(After(trace, initcall, |trace|));
            && WINDOW in share && share[WINDOW] == trace[f].ts - trace[s].ts
            && (SumOver(share, share.Keys - {WINDOW}) == trace[f].ts - trace[s].ts <==> !Lost(trace, s, f))
  {
    hide NameOf, After, TimeIn, Time, SumOver, Accounted, LostAt;
    WindowCloses(trace, initcall, s, f);
    OneCpuInside(trace, initcall, s, f, f);
    assert trace[s].cpu == trace[f].cpu && trace[s].ts <= trace[f].ts;
    var before, l := After(trace, initcall, f), trace[f];
    var more := Accounted(before, l.cpu, CpuOf(before, l), l.ts);
    InsideWindow(trace, initcall, s, f, f);
    LastAccount(before, l.cpu, CpuOf(before, l), l.ts);
    SharesAddUp(After(trace, initcall, |trace|));
    LostInside(trace, initcall, s, f, f);
    AccountLoses(trace, initcall, s, f, f);
    TimeInAppend(before.log, more, {WINDOW});
  }

  lemma LastAccount(st: State, cpu: string, c: Cpu, until: int)
    requires st.open && st.start <= c.at <= until
    ensures |Accounted(st, cpu, c, until)| <= 1
    ensures Time(st.log + Accounted(st, cpu, c, until)) == Time(st.log) + (until - c.at)
  {
    hide NameOf, Time;
    TimeAppend(st.log, Accounted(st, cpu, c, until));
  }

  /** So every trace without a task of that name is shared out to the last microsecond. */
  lemma OneCpuConservesWithoutTheName(trace: seq<Line>, initcall: string, s: nat, f: nat)
    requires InOrder(trace) && OneCpu(trace) && IsWindow(trace, initcall, s, f) && NoTaskNamedWindow(trace)
    ensures var share := Answer(After(trace, initcall, |trace|));
            SumOver(share, share.Keys - {WINDOW}) == trace[f].ts - trace[s].ts
  {
    hide After, Answer, NamedWindow, SumOver, InOrder, OneCpu;
    OneCpuConserves(trace, initcall, s, f);
    forall n | s < n <= f ensures !LostAt(trace, s, f, n) {
      RunnerIsNamed(trace, s, n);
    }
  }

  lemma {:induction false} RunnerIsNamed(trace: seq<Line>, s: nat, n: nat)
    requires NoTaskNamedWindow(trace) && s < n <= |trace|
    ensures !NamedWindow(Runner(trace, s, n).0)
    decreases n
  {
    hide NamedWindow;
    if n == s + 1 {
      assert trace[s] in trace;
    } else {
      assert trace[n - 1] in trace;
      RunnerIsNamed(trace, s, n - 1);
    }
  }

  /** And one with it need not be: here the window is ten long and nothing of it is accounted for. */
  lemma AWindowTaskIsLost(task: string, pid: string, cpu: string, func: string)
    requires NamedWindow(task)
    ensures var trace := [Line(task, pid, cpu, 10, Start(func)), Line(task, pid, cpu, 20, Finish(func))];
            InOrder(trace) && OneCpu(trace) && IsWindow(trace, func, 0, 1) &&
            var share := Answer(After(trace, func, 2));
            SumOver(share, share.Keys - {WINDOW}) == 0
  {
    hide NamedWindow, TimeIn, Time, SumOver, After, Step, NameOf;
    var trace := [Line(task, pid, cpu, 10, Start(func)), Line(task, pid, cpu, 20, Finish(func))];
    var st := State(map[], map[cpu := Cpu(task, pid, 10)], true, 10, [Segment(cpu, 10, 20, WINDOW)], Some(20));
    LostRun(task, pid, cpu, func);
    SharesAre(st.log);
    assert Answer(st).Keys - {WINDOW} == {};
    SumIsTime(st.log, Answer(st), {});
    NoTime(st.log, {});
  }

  lemma LostRun(task: string, pid: string, cpu: string, func: string)
    requires NamedWindow(task)
    ensures After([Line(task, pid, cpu, 10, Start(func)), Line(task, pid, cpu, 20, Finish(func))], func, 2) ==
            State(map[], map[cpu := Cpu(task, pid, 10)], true, 10, [Segment(cpu, 10, 20, WINDOW)], Some(20))
  {
    hide TaskName, After;
    var trace := [Line(task, pid, cpu, 10, Start(func)), Line(task, pid, cpu, 20, Finish(func))];
    NothingYet(trace, func);
    OneMore(trace, func, 1);
    OneMore(trace, func, 2);
    var st := State(map[], map[cpu := Cpu(task, pid, 10)], true, 10, [], None);
    assert After(trace, func, 1) == st;
    assert st.cpus[cpu := CpuOf(st, trace[1])] == st.cpus;
  }

  /** The kernel may call a task that. */
  lemma ATaskMayBeCalledWindow()
    ensures NamedWindow(WINDOW)
  {
    IndexOfAbsent(WINDOW, '/');
  }

  // ----- on several CPUs nothing is counted twice

  /** The stretches of one CPU, in order, none overlapping the one before, all of them between the
      start of the window and a moment. */
  ghost predicate Apart(log: seq<Segment>, cpu: string, start: int, until: int) {
    && (forall g | g in log && g.cpu == cpu :: start <= g.from <= g.to <= until)
    && (forall i, j | 0 <= i < j < |log| && log[i].cpu == cpu && log[j].cpu == cpu :: log[i].to <= log[j].from)
  }

  function CpuTime(log: seq<Segment>, cpu: string): int {
    if log == [] then 0 else
      var g := log[|log| - 1];
      CpuTime(log[..|log| - 1], cpu) + (if g.cpu == cpu then g.to - g.from else 0)
  }

  lemma {:induction false} ApartFits(log: seq<Segment>, cpu: string, start: int, until: int)
    requires Apart(log, cpu, start, until) && start <= until
    ensures 0 <= CpuTime(log, cpu) <= until - start
  {
    if log != [] {
      var rest, g := log[..|log| - 1], log[|log| - 1];
      assert g in log && forall x | x in rest :: x in log;
      if g.cpu == cpu {
        forall x | x in rest && x.cpu == cpu ensures x.to <= g.from {
          var i :| 0 <= i < |rest| && rest[i] == x;
          assert log[i] == x;
        }
        ApartFits(rest, cpu, start, g.from);
      } else {
        ApartFits(rest, cpu, start, until);
      }
    }
  }

  /** Up to when a CPU has been accounted for inside the window. */
  function UpTo(st: State, cpu: string): int { if cpu in st.cpus then Max(st.cpus[cpu].at, st.start) else st.start }

  lemma ApartNext(log: seq<Segment>, g: Segment, cpu: string, start: int, until: int)
    requires Apart(log, cpu, start, until) && start <= until <= g.from <= g.to
    ensures Apart(log + [g], cpu, start, g.to)
  {
    forall i, j | 0 <= i < j < |log + [g]| && (log + [g])[i].cpu == cpu && (log + [g])[j].cpu == cpu
      ensures (log + [g])[i].to <= (log + [g])[j].from
    {
      if j == |log| {
        assert log[i] in log;
      }
    }
  }

  lemma ApartOther(log: seq<Segment>, g: Segment, cpu: string, start: int, until: int)
    requires Apart(log, cpu, start, until) && g.cpu != cpu
    ensures Apart(log + [g], cpu, start, until)
  {
  }

  lemma ApartLater(log: seq<Segment>, cpu: string, start: int, until: int, later: int)
    requires Apart(log, cpu, start, until) && until <= later
    ensures Apart(log, cpu, start, later)
  {
  }

  lemma {:induction false} CpusApart(trace: seq<Line>, initcall: string, s: nat, f: nat, n: nat, cpu: string)
    requires InOrder(trace) && IsWindow(trace, initcall, s, f) && s < n <= f
    ensures var st := After(trace, initcall, n);
            Apart(st.log, cpu, st.start, UpTo(st, cpu)) && st.start <= UpTo(st, cpu) <= trace[n - 1].ts
    decreases n
  {
    hide NameOf, Apart, After;
    InsideWindow(trace, initcall, s, f, n);
    OneMore(trace, initcall, n);
    if n == s + 1 {
      BeforeWindow(trace, initcall, s);
      NothingApart(cpu, trace[s].ts, UpTo(After(trace, initcall, n), cpu));
    } else {
      InsideWindow(trace, initcall, s, f, n - 1);
      CpusApart(trace, initcall, s, f, n - 1, cpu);
      StepApart(After(trace, initcall, n - 1), trace[n - 1], initcall, cpu);
    }
  }

  lemma NothingApart(cpu: string, start: int, until: int)
    ensures Apart([], cpu, start, until)
  {
  }

  lemma AccountApart(st: State, cpu: string, c: Cpu, until: int, other: string)
    requires st.open && Apart(st.log, other, st.start, UpTo(st, other)) && st.start <= UpTo(st, other)
    requires st.start <= until && (cpu in st.cpus ==> st.cpus[cpu] == c) && (cpu !in st.cpus ==> c.at == until)
    ensures other == cpu && c.at <= until ==>
              Apart(st.log + Accounted(st, cpu, c, until), cpu, st.start, Max(until, st.start))
    ensures other != cpu ==> Apart(st.log + Accounted(st, cpu, c, until), other, st.start, UpTo(st, other))
  {
    hide NameOf, Apart;
    var more := Accounted(st, cpu, c, until);
    if more == [] {
      assert st.log + more == st.log;
      if other == cpu && c.at <= until {
        ApartLater(st.log, cpu, st.start, UpTo(st, cpu), Max(until, st.start));
      }
    } else if other == cpu {
      ApartNext(st.log, more[0], cpu, st.start, UpTo(st, cpu));
    } else {
      ApartOther(st.log, more[0], other, st.start, UpTo(st, other));
    }
  }

  lemma StepApart(st: State, l: Line, initcall: string, cpu: string)
    requires st.open && st.finish.None? && !StartsIt(l, initcall) && !FinishesIt(l, initcall)
    requires Apart(st.log, cpu, st.start, UpTo(st, cpu)) && st.start <= UpTo(st, cpu) && st.start <= l.ts
    requires forall c | c in st.cpus :: st.cpus[c].at <= l.ts
    ensures var st' := Step(st, l, initcall);
            Apart(st'.log, cpu, st'.start, UpTo(st', cpu)) && st'.start == st.start
  {
    hide NameOf, Apart;
    var c := CpuOf(st, l);
    AccountApart(st, l.cpu, c, l.ts, cpu);
    assert st.log + [] == st.log;
    if l.kind.Start? || l.kind.Finish? {
      ApartLater(st.log, cpu, st.start, UpTo(st, cpu), UpTo(Step(st, l, initcall), cpu));
    }
  }

  /** On any number of CPUs, what is accounted of each is disjoint stretches of the window, so no
      interval is counted twice and no CPU counts for more than the window. */
  lemma NoCpuIsCountedTwice(trace: seq<Line>, initcall: string, s: nat, f: nat, cpu: string)
    requires InOrder(trace) && IsWindow(trace, initcall, s, f)
    ensures var log := After(trace, initcall, |trace|).log;
            Apart(log, cpu, trace[s].ts, trace[f].ts) && 0 <= CpuTime(log, cpu) <= trace[f].ts - trace[s].ts
  {
    hide NameOf, Apart, After, Accounted;
    WindowCloses(trace, initcall, s, f);
    InsideWindow(trace, initcall, s, f, f);
    CpusApart(trace, initcall, s, f, f, cpu);
    var st, l := After(trace, initcall, f), trace[f];
    var c := CpuOf(st, l);
    AccountApart(st, l.cpu, c, l.ts, cpu);
    if cpu != l.cpu {
      ApartLater(st.log + Accounted(st, l.cpu, c, l.ts), cpu, st.start, UpTo(st, cpu), l.ts);
    }
    ApartFits(After(trace, initcall, |trace|).log, cpu, trace[s].ts, trace[f].ts);
  }

  // ----- what each CPU ran, read off the trace

  /** Whom a CPU runs before line n, if it has been heard of: the last task it switched to, or else the one
      its first line is of; and from the start of the window on the one that made the initcall. */
  function Running(trace: seq<Line>, s: nat, n: nat, cpu: string): Option<(string, string)>
    requires n <= |trace|
  {
    if n == 0 then None else
      var l, before := trace[n - 1], Running(trace, s, n - 1, cpu);
      if l.cpu != cpu then before
      else if l.kind.Switch? && l.kind.next.Some? then l.kind.next
      else if n - 1 == s || before.None? then Some((l.task, l.pid))
      else before
  }

  /** Up to when a CPU has been accounted for before line n: its last line an account is made at, or the
      start of the window, or its first line. */
  function Since(trace: seq<Line>, s: nat, n: nat, cpu: string): int
    requires n <= |trace|
  {
    if n == 0 then 0 else
      var l := trace[n - 1];
      if l.cpu == cpu && (Marks(l) || n - 1 == s || Running(trace, s, n - 1, cpu).None?) then l.ts
      else Since(trace, s, n - 1, cpu)
  }

  /** A task goes by what its name has before a slash, and by the work item it is on, when it is on one. */
  ghost predicate Called(x: string, task: string, item: string) {
    exists name :: '/' !in name && (task == name || name + "/" <= task) &&
      x == if item == "" then name else name + ":" + item
  }

  function Item(work: map<string, string>, pid: string): string { if pid in work then work[pid] else "" }

  /** What line n puts to a name's account: all the time since the last account of its CPU, in the window, if
      that is whom the CPU ran. */
  ghost function Ran(trace: seq<Line>, s: nat, f: nat, n: nat, x: string): int
    requires s < n <= f < |trace|
  {
    var l := trace[n];
    var who, since := Running(trace, s, n, l.cpu), Since(trace, s, n, l.cpu);
    if (Marks(l) || n == f) && who.Some? && since < l.ts &&
       Called(x, who.value.0, Item(Work(trace, n), who.value.1))
    then l.ts - Max(since, trace[s].ts) else 0
  }

  /** The time a name had before line n. */
  ghost function RanBefore(trace: seq<Line>, s: nat, f: nat, n: nat, x: string): int
    requires s < n <= f + 1 && f < |trace|
    decreases n
  {
    if n == s + 1 then 0 else RanBefore(trace, s, f, n - 1, x) + Ran(trace, s, f, n - 1, x)
  }

  lemma NameIsCalled(c: Cpu, work: map<string, string>, x: string)
    ensures NameOf(c, work) == x <==> Called(x, c.task, Item(work, c.pid))
  {
    var name, item := TaskName(c.task), Item(work, c.pid);
    var at := IndexOf(c.task, '/');
    assert c.task == name || name + "/" <= c.task;
    assert NameOf(c, work) == if item == "" then name else name + ":" + item;
    if Called(x, c.task, item) {
      var other :| '/' !in other && (c.task == other || other + "/" <= c.task) &&
        x == if item == "" then other else other + ":" + item;
      OneTaskName(c.task, other);
    }
  }

  lemma OneTaskName(task: string, name: string)
    requires '/' !in name && (task == name || name + "/" <= task)
    ensures TaskName(task) == name
  {
    if task == name {
      IndexOfAbsent(task, '/');
    } else {
      assert task == name + ['/'] + task[|name| + 1..];
      CutOf(name, '/', task[|name| + 1..]);
    }
  }

  /** The walk keeps just this of the trace and a CPU, up to the end of the window. */
  predicate Keeps(st: State, trace: seq<Line>, s: nat, n: nat, cpu: string)
    requires s < |trace| && n <= |trace|
  {
    && st.finish.None? && st.work == Work(trace, n)
    && (if n <= s then !st.open && st.log == [] else st.open && st.start == trace[s].ts)
    && match Running(trace, s, n, cpu)
       case None => cpu !in st.cpus
       case Some((task, pid)) => cpu in st.cpus && st.cpus[cpu] == Cpu(task, pid, Since(trace, s, n, cpu))
  }

  lemma {:induction false} WalkKeeps(trace: seq<Line>, initcall: string, s: nat, f: nat, n: nat, cpu: string)
    requires IsWindow(trace, initcall, s, f) && n <= f
    ensures Keeps(After(trace, initcall, n), trace, s, n, cpu)
  {
    hide NameOf, After;
    if n == 0 {
      NothingYet(trace, initcall);
    } else {
      WalkKeeps(trace, initcall, s, f, n - 1, cpu);
      OneMore(trace, initcall, n);
    }
  }

  lemma {:induction false} AccountedIsRan(trace: seq<Line>, initcall: string, s: nat, f: nat, n: nat, x: string)
    requires IsWindow(trace, initcall, s, f) && s < n <= f && (Marks(trace[n]) || n == f)
    ensures var st, l := After(trace, initcall, n), trace[n];
            TimeIn(Accounted(st, l.cpu, CpuOf(st, l), l.ts), {x}) == Ran(trace, s, f, n, x)
  {
    hide NameOf, After, Called, Running, Since, Work;
    WalkKeeps(trace, initcall, s, f, n, trace[n].cpu);
    var st, l := After(trace, initcall, n), trace[n];
    NameIsCalled(CpuOf(st, l), st.work, x);
    var log := Accounted(st, l.cpu, CpuOf(st, l), l.ts);
    assert log != [] ==> log[..|log| - 1] == [];
  }

  lemma {:induction false} LogIsRan(trace: seq<Line>, initcall: string, s: nat, f: nat, n: nat, x: string)
    requires IsWindow(trace, initcall, s, f) && s < n <= f
    ensures TimeIn(After(trace, initcall, n).log, {x}) == RanBefore(trace, s, f, n, x)
    decreases n
  {
    hide NameOf, After, Accounted, TimeIn, Keeps, Ran;
    OneMore(trace, initcall, n);
    var cpu := trace[n - 1].cpu;
    WalkKeeps(trace, initcall, s, f, n - 1, cpu);
    if n == s + 1 {
      KeepsNothing(After(trace, initcall, s), trace, s, cpu);
      NoTime([], {x});
    } else {
      LogIsRan(trace, initcall, s, f, n - 1, x);
      var st, l := After(trace, initcall, n - 1), trace[n - 1];
      StillOpen(st, trace, s, n - 1, cpu);
      if Marks(l) {
        AccountedIsRan(trace, initcall, s, f, n - 1, x);
        StepAccounts(st, l, initcall);
        TimeInAppend(st.log, Accounted(st, l.cpu, CpuOf(st, l), l.ts), {x});
      } else {
        NoneRan(trace, s, f, n - 1, x);
      }
    }
  }

  lemma KeepsNothing(st: State, trace: seq<Line>, s: nat, cpu: string)
    requires s < |trace| && Keeps(st, trace, s, s, cpu)
    ensures st.finish.None? && st.log == []
  {
  }

  lemma StillOpen(st: State, trace: seq<Line>, s: nat, n: nat, cpu: string)
    requires s < n <= |trace| && Keeps(st, trace, s, n, cpu)
    ensures st.finish.None? && st.open && st.start == trace[s].ts
  {
  }

  lemma NoneRan(trace: seq<Line>, s: nat, f: nat, n: nat, x: string)
    requires s < n < f < |trace| && !Marks(trace[n])
    ensures Ran(trace, s, f, n, x) == 0
  {
  }

  /** What cpuShare answers, by whom each CPU ran: the length of the window under its own name, and under
      every other the time the CPUs ran what goes by it, from the start of the initcall to its finish. */
  lemma SharesAreWhatRan(trace: seq<Line>, initcall: string, s: nat, f: nat, x: string)
    requires IsWindow(trace, initcall, s, f)
    ensures var share := Answer(After(trace, initcall, |trace|));
            && WINDOW in share && share[WINDOW] == trace[f].ts - trace[s].ts
            && (x != WINDOW ==> (if x in share then share[x] else 0) == RanBefore(trace, s, f, f + 1, x))
  {
    hide NameOf, After, Accounted, TimeIn, Keeps, Ran, Shares;
    WalkKeeps(trace, initcall, s, f, f, trace[f].cpu);
    var st, l := After(trace, initcall, f), trace[f];
    StillOpen(st, trace, s, f, l.cpu);
    OneMore(trace, initcall, f + 1);
    StaysFinished(trace, initcall, f + 1, |trace|);
    var log := After(trace, initcall, |trace|).log;
    SharesAre(log);
    LogIsRan(trace, initcall, s, f, f, x);
    AccountedIsRan(trace, initcall, s, f, f, x);
    AccountsOnce(st, l.cpu, CpuOf(st, l), l.ts);
    TimeInAppend(st.log, Accounted(st, l.cpu, CpuOf(st, l), l.ts), {x});
    if x !in NamesIn(log) {
      NoTime(log, {x});
    }
  }

  lemma AccountsOnce(st: State, cpu: string, c: Cpu, until: int)
    ensures |Accounted(st, cpu, c, until)| <= 1
  {
    hide NameOf;
  }

  lemma {:induction false} NotFinished(trace: seq<Line>, initcall: string, n: nat)
    requires n <= |trace|
    requires forall i, j | 0 <= i < j < |trace| :: !(StartsIt(trace[i], initcall) && FinishesIt(trace[j], initcall))
    ensures var st := After(trace, initcall, n);
            st.finish.None? && (st.open ==> exists i | 0 <= i < n :: StartsIt(trace[i], initcall))
  {
    hide NameOf, After, Accounted;
    if n == 0 {
      NothingYet(trace, initcall);
    } else {
      NotFinished(trace, initcall, n - 1);
      OneMore(trace, initcall, n);
      if StartsIt(trace[n - 1], initcall) {
        assert After(trace, initcall, n).finish.None?;
      }
    }
  }

  /** A trace in which no finish of the initcall follows a start of it has no shares. */
  lemma NoWindowNoShares(trace: seq<Line>, initcall: string)
    requires forall i, j | 0 <= i < j < |trace| :: !(StartsIt(trace[i], initcall) && FinishesIt(trace[j], initcall))
    ensures Answer(After(trace, initcall, |trace|)) == map[]
  {
    hide After;
    NotFinished(trace, initcall, |trace|);
  }
}
