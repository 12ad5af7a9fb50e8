/** The time a function_graph trace spent on each call path, the lines of several CPUs interleaved.
    Times are whole nanoseconds. */
module CallGraph {
  import opened Text

  /** A line of the trace: a call that opens, one that closes, one with nothing inside, or text that
      is none of these. */
  datatype Line =
    | Open(cpu: string, func: string)
    | Close(cpu: string, ns: nat, func: string)
    | Leaf(cpu: string, ns: nat, func: string)
    | Other

  datatype State = State(stacks: map<string, seq<string>>, total: map<string, nat>)

  const BEGIN := State(map[], map[])

  function StackOf(stacks: map<string, seq<string>>, cpu: string): seq<string> {
    if cpu in stacks then stacks[cpu] else []
  }

  function Amount(total: map<string, nat>, path: string): nat { if path in total then total[path] else 0 }

  function PathOf(stack: seq<string>): string { Join(stack, "/") }

  /** Whether a close ends the call on top of its CPU's stack. */
  predicate Matches(stack: seq<string>, func: string) { stack != [] && stack[|stack| - 1] == func }

  /** The path a line puts time to, and how much. */
  function Spent(stack: seq<string>, l: Line): Option<(string, nat)> {
    match l
    case Close(_, ns, func) => if Matches(stack, func) then Some((PathOf(stack), ns)) else None
    case Leaf(_, ns, func) => Some((PathOf(stack + [func]), ns))
    case _ => None
  }

  function Credit(total: map<string, nat>, spent: Option<(string, nat)>): map<string, nat> {
    match spent case None => total case Some((path, ns)) => total[path := Amount(total, path) + ns]
  }

  function Stacked(stacks: map<string, seq<string>>, l: Line): map<string, seq<string>> {
    match l
    case Open(cpu, func) => stacks[cpu := StackOf(stacks, cpu) + [func]]
    case Close(cpu, _, func) =>
      var stack := StackOf(stacks, cpu);
      if Matches(stack, func) then stacks[cpu := stack[..|stack| - 1]] else stacks
    case _ => stacks
  }

  function Step(s: State, l: Line): State {
    State(Stacked(s.stacks, l), if l.Other? then s.total else Credit(s.total, Spent(StackOf(s.stacks, l.cpu), l)))
  }

  function From(s: State, trace: seq<Line>): State {
    if trace == [] then s else Step(From(s, trace[..|trace| - 1]), trace[|trace| - 1])
  }

  function After(trace: seq<Line>): State { From(BEGIN, trace) }

  /** parseGraph. */
  method ParseGraph(trace: seq<Line>) returns (total: map<string, nat>)
    ensures total == After(trace).total
  {
    total := map[];
    var stacks: map<string, seq<string>> := map[];
    for k := 0 to |trace|
      invariant State(stacks, total) == After(trace[..k])
    {
      assert trace[..k + 1][..k] == trace[..k];
      match trace[k] {
        case Open(cpu, func) =>
          stacks := stacks[cpu := (if cpu in stacks then stacks[cpu] else []) + [func]];
        case Close(cpu, ns, func) =>
          var stack := if cpu in stacks then stacks[cpu] else [];
          if stack == [] || stack[|stack| - 1] != func {
            continue;
          }
          var path := Join(stack, "/");
          total := total[path := (if path in total then total[path] else 0) + ns];
          stacks := stacks[cpu := stack[..|stack| - 1]];
        case Leaf(cpu, ns, func) =>
          var path := Join((if cpu in stacks then stacks[cpu] else []) + [func], "/");
          total := total[path := (if path in total then total[path] else 0) + ns];
        case Other =>
      }
    }
    assert trace[..|trace|] == trace;
  }

  lemma {:induction false} FromConcat(s: State, a: seq<Line>, b: seq<Line>)
    ensures From(s, a + b) == From(From(s, a), b)
  {
    hide Step;
    if b == [] {
      assert a + b == a;
    } else {
      assert (a + b)[..|a + b| - 1] == a + b[..|b| - 1];
      FromConcat(s, a, b[..|b| - 1]);
    }
  }

  lemma FromOne(s: State, l: Line)
    ensures From(s, [l]) == Step(s, l)
  {
    hide Step;
    assert [l][..0] == [];
  }

  /** A close whose open is not on top of its CPU's stack leaves stacks and totals alone, wherever in
      the trace it is. */
  lemma UnmatchedCloseIsNothing(a: seq<Line>, l: Line, b: seq<Line>)
    requires l.Close? && !Matches(StackOf(After(a).stacks, l.cpu), l.func)
    ensures After(a + [l] + b) == After(a + b)
  {
    hide From;
    FromConcat(BEGIN, a + [l], b);
    FromConcat(BEGIN, a, [l]);
    FromConcat(BEGIN, a, b);
    FromOne(After(a), l);
  }

  // ----- the CPUs are apart

  predicate On(l: Line, cpu: string) { !l.Other? && l.cpu == cpu }

  /** The lines of one CPU, in order. */
  function OnCpu(trace: seq<Line>, cpu: string): seq<Line> {
    if trace == [] then [] else
      OnCpu(trace[..|trace| - 1], cpu) + (if On(trace[|trace| - 1], cpu) then [trace[|trace| - 1]] else [])
  }

  lemma OnCpuNext(trace: seq<Line>, l: Line, cpu: string)
    ensures OnCpu(trace + [l], cpu) == if On(l, cpu) then OnCpu(trace, cpu) + [l] else OnCpu(trace, cpu)
    ensures After(trace + [l]) == Step(After(trace), l)
  {
    hide Step;
    assert (trace + [l])[..|trace|] == trace;
  }

  lemma AfterNext(trace: seq<Line>, l: Line)
    ensures After(trace + [l]) == Step(After(trace), l)
  {
    hide Step;
    assert (trace + [l])[..|trace|] == trace;
  }

  /** A CPU's stack comes of that CPU's lines alone. */
  lemma {:induction false} StackIsItsCpus(trace: seq<Line>, cpu: string)
    ensures StackOf(After(trace).stacks, cpu) == StackOf(After(OnCpu(trace, cpu)).stacks, cpu)
  {
    if trace != [] {
      hide After, OnCpu;
      var rest, l := trace[..|trace| - 1], trace[|trace| - 1];
      assert trace == rest + [l];
      StackIsItsCpus(rest, cpu);
      OnCpuNext(rest, l, cpu);
      AfterNext(OnCpu(rest, cpu), l);
    }
  }

  /** What a line adds to a path, from the stack of its CPU. */
  function Gain(stack: seq<string>, l: Line, path: string): nat {
    match Spent(stack, l) case None => 0 case Some((p, ns)) => if p == path then ns else 0
  }

  lemma StepGains(s: State, l: Line, path: string)
    requires !l.Other?
    ensures Amount(Step(s, l).total, path) == Amount(s.total, path) + Gain(StackOf(s.stacks, l.cpu), l, path)
    ensures path in Step(s, l).total <==>
            path in s.total || (Spent(StackOf(s.stacks, l.cpu), l).Some? &&
                Spent(StackOf(s.stacks, l.cpu), l).value.0 == path)
  {
    hide PathOf, Stacked;
  }

  /** The time on a path summed over some CPUs, each of whose lines are parsed alone. */
  function Summed(trace: seq<Line>, cpus: seq<string>, path: string): nat {
    if cpus == [] then 0 else
      Summed(trace, cpus[1..], path) + Amount(After(OnCpu(trace, cpus[0])).total, path)
  }

  predicate Covers(cpus: seq<string>, trace: seq<Line>) { forall l | l in trace && !l.Other? :: l.cpu in cpus }

  lemma CpuGains(trace: seq<Line>, l: Line, cpu: string, path: string)
    ensures Amount(After(OnCpu(trace + [l], cpu)).total, path) ==
            Amount(After(OnCpu(trace, cpu)).total, path) +
            if On(l, cpu) then Gain(StackOf(After(trace).stacks, cpu), l, path) else 0
  {
    hide After, OnCpu, Gain, Step;
    OnCpuNext(trace, l, cpu);
    if On(l, cpu) {
      AfterNext(OnCpu(trace, cpu), l);
      StackIsItsCpus(trace, cpu);
      StepGains(After(OnCpu(trace, cpu)), l, path);
    }
  }

  lemma {:induction false} SumGains(trace: seq<Line>, l: Line, cpus: seq<string>, path: string)
    requires Distinct(cpus)
    ensures Summed(trace + [l], cpus, path) == Summed(trace, cpus, path) +
            if !l.Other? && l.cpu in cpus then Gain(StackOf(After(trace).stacks, l.cpu), l, path) else 0
  {
    hide After, OnCpu, Gain;
    if cpus != [] {
      assert cpus == [cpus[0]] + cpus[1..];
      assert forall j | 0 <= j < |cpus| - 1 :: cpus[1..][j] != cpus[0];
      SumGains(trace, l, cpus[1..], path);
      CpuGains(trace, l, cpus[0], path);
    }
  }

  /** The result is the sum of the single-CPU results, over any list of the trace's CPUs. */
  lemma {:induction false} TotalsAreSums(trace: seq<Line>, cpus: seq<string>, path: string)
    requires Distinct(cpus) && Covers(cpus, trace)
    ensures Amount(After(trace).total, path) == Summed(trace, cpus, path)
  {
    if trace == [] {
      NothingSummed(cpus, path);
    } else {
      hide After, Summed, Gain, Step;
      var rest, l := trace[..|trace| - 1], trace[|trace| - 1];
      assert trace == rest + [l];
      assert forall x | x in rest :: x in trace;
      assert l in trace;
      TotalsAreSums(rest, cpus, path);
      SumGains(rest, l, cpus, path);
      AfterNext(rest, l);
      if l.Other? {
        StepOther(After(rest), l);
      } else {
        StepGains(After(rest), l, path);
      }
    }
  }

  lemma StepOther(s: State, l: Line)
    requires l.Other?
    ensures Step(s, l) == s
  {
  }

  lemma {:induction false} NothingSummed(cpus: seq<string>, path: string)
    ensures Summed([], cpus, path) == 0
  {
    if cpus != [] {
      NothingSummed(cpus[1..], path);
    }
  }

  /** Whether a CPU's lines, parsed alone, have an entry for a path. */
  predicate HasPath(trace: seq<Line>, cpu: string, path: string) { path in After(OnCpu(trace, cpu)).total }

  /** And a path has an entry exactly when it has one on some CPU. */
  lemma {:induction false} PathsAreItsCpus(trace: seq<Line>, path: string)
    ensures path in After(trace).total <==> exists cpu :: HasPath(trace, cpu, path)
  {
    if trace == [] {
      assert forall cpu :: OnCpu(trace, cpu) == [];
    } else {
      hide After, HasPath;
      var rest, l := trace[..|trace| - 1], trace[|trace| - 1];
      assert trace == rest + [l];
      PathsAreItsCpus(rest, path);
      PathsGrow(rest, l, path);
    }
  }

  /** Whether a line puts time to a path. */
  predicate PutsTo(stack: seq<string>, l: Line, path: string) {
    Spent(stack, l).Some? && Spent(stack, l).value.0 == path
  }

  lemma CpuPathsGrow(rest: seq<Line>, l: Line, cpu: string, path: string)
    ensures HasPath(rest + [l], cpu, path) <==>
            HasPath(rest, cpu, path) || (On(l, cpu) && PutsTo(StackOf(After(rest).stacks, cpu), l, path))
  {
    hide After, OnCpu, Step, Spent, StackOf;
    OnCpuNext(rest, l, cpu);
    if On(l, cpu) {
      StackIsItsCpus(rest, cpu);
      AfterNext(OnCpu(rest, cpu), l);
      StepGains(After(OnCpu(rest, cpu)), l, path);
    }
  }

  lemma AllPathsGrow(rest: seq<Line>, l: Line, path: string)
    ensures path in After(rest + [l]).total <==>
            path in After(rest).total || (!l.Other? && PutsTo(StackOf(After(rest).stacks, l.cpu), l, path))
  {
    hide After, Step, Spent, StackOf;
    AfterNext(rest, l);
    if l.Other? {
      StepOther(After(rest), l);
    } else {
      StepGains(After(rest), l, path);
    }
  }

  lemma PathsGrow(rest: seq<Line>, l: Line, path: string)
    requires path in After(rest).total <==> exists cpu :: HasPath(rest, cpu, path)
    ensures path in After(rest + [l]).total <==> exists cpu :: HasPath(rest + [l], cpu, path)
  {
    hide After, HasPath, PutsTo, StackOf;
    AllPathsGrow(rest, l, path);
    forall cpu
      ensures HasPath(rest + [l], cpu, path) <==>
              HasPath(rest, cpu, path) || (On(l, cpu) && PutsTo(StackOf(After(rest).stacks, cpu), l, path))
    {
      CpuPathsGrow(rest, l, cpu, path);
    }
    if path in After(rest).total {
      var cpu :| HasPath(rest, cpu, path);
      assert HasPath(rest + [l], cpu, path);
    } else if !l.Other? {
      assert HasPath(rest + [l], l.cpu, path) <== PutsTo(StackOf(After(rest).stacks, l.cpu), l, path);
    }
  }

  function CpusOf(trace: seq<Line>): (cpus: seq<string>)
    ensures Distinct(cpus) && Covers(cpus, trace)
    ensures forall c | c in cpus :: OnCpu(trace, c) != []
  {
    if trace == [] then [] else
      var rest, l := trace[..|trace| - 1], trace[|trace| - 1];
      assert trace == rest + [l];
      var cpus := CpusOf(rest);
      if l.Other? || l.cpu in cpus then cpus else cpus + [l.cpu]
  }

  lemma {:induction false} HasLines(trace: seq<Line>, l: Line)
    requires l in trace && !l.Other?
    ensures OnCpu(trace, l.cpu) != []
  {
    var rest, last := trace[..|trace| - 1], trace[|trace| - 1];
    assert trace == rest + [last];
    if last != l {
      HasLines(rest, l);
    }
  }

  /** Two interleavings of the same lines of each CPU come to the same totals. */
  lemma InterleavingsAgree(a: seq<Line>, b: seq<Line>)
    requires forall cpu :: OnCpu(a, cpu) == OnCpu(b, cpu)
    ensures After(a).total == After(b).total
  {
    hide After, OnCpu;
    var cpus := CpusOf(a);
    forall l | l in b && !l.Other? ensures l.cpu in cpus {
      HasLines(b, l);
      SomeLine(a, l.cpu);
    }
    forall path
      ensures path in After(a).total <==> path in After(b).total
      ensures Amount(After(a).total, path) == Amount(After(b).total, path)
    {
      PathsAreItsCpus(a, path);
      PathsAreItsCpus(b, path);
      assert forall cpu :: HasPath(a, cpu, path) <==> HasPath(b, cpu, path);
      TotalsAreSums(a, cpus, path);
      TotalsAreSums(b, cpus, path);
      SummedAgree(a, b, cpus, path);
    }
    assert forall path | path in After(a).total :: Amount(After(a).total, path) == After(a).total[path];
  }

  lemma {:induction false} SomeLine(trace: seq<Line>, cpu: string)
    requires OnCpu(trace, cpu) != []
    ensures exists l :: l in trace && On(l, cpu)
  {
    var rest, l := trace[..|trace| - 1], trace[|trace| - 1];
    if On(l, cpu) {
      assert l in trace;
    } else {
      SomeLine(rest, cpu);
      var x :| x in rest && On(x, cpu);
      assert x in trace;
    }
  }

  lemma {:induction false} SummedAgree(a: seq<Line>, b: seq<Line>, cpus: seq<string>, path: string)
    requires forall cpu :: OnCpu(a, cpu) == OnCpu(b, cpu)
    ensures Summed(a, cpus, path) == Summed(b, cpus, path)
  {
    hide After, OnCpu;
    if cpus != [] {
      SummedAgree(a, b, cpus[1..], path);
    }
  }

  // ----- what the totals mean

  /** A path names the stack it was made of: the names of kernel functions have no slash in them. */
  lemma PathsAreStacks(a: seq<string>, b: seq<string>)
    requires a != [] && b != [] && (forall f | f in a + b :: '/' !in f)
    requires PathOf(a) == PathOf(b)
    ensures a == b
  {
    forall f | f in a ensures '/' !in f { assert f in a + b; }
    forall f | f in b ensures '/' !in f { assert f in a + b; }
    JoinInjective(a, b, '/');
  }

  /** A call as it happened, and how long it took. */
  datatype Call = Plain(func: string, ns: nat) | Nested(func: string, ns: nat, inner: seq<Call>)

  /** What the tracer prints of one call, and of calls one after the other. */
  function PrintedOne(cpu: string, c: Call): seq<Line> {
    match c
    case Plain(func, ns) => [Leaf(cpu, ns, func)]
    case Nested(func, ns, inner) => [Open(cpu, func)] + Printed(cpu, inner) + [Close(cpu, ns, func)]
  }

  function Printed(cpu: string, calls: seq<Call>): seq<Line> {
    if calls == [] then [] else PrintedOne(cpu, calls[0]) + Printed(cpu, calls[1..])
  }

  /** The time of the calls, under a stack, that are on a path. */
  function TimeOf(stack: seq<string>, c: Call, path: string): nat
    decreases c, 0
  {
    (if PathOf(stack + [c.func]) == path then c.ns else 0) +
    (if c.Nested? then TimeOn(stack + [c.func], c.inner, path) else 0)
  }

  function TimeOn(stack: seq<string>, calls: seq<Call>, path: string): nat
    decreases calls, 1
  {
    if calls == [] then 0 else TimeOf(stack, calls[0], path) + TimeOn(stack, calls[1..], path)
  }

  lemma {:induction false} PrintedIsParsed(s: State, cpu: string, calls: seq<Call>, path: string)
    ensures var next := From(s, Printed(cpu, calls));
            && StackOf(next.stacks, cpu) == StackOf(s.stacks, cpu)
            && Amount(next.total, path) == Amount(s.total, path) + TimeOn(StackOf(s.stacks, cpu), calls, path)
    decreases calls, 1
  {
    if calls != [] {
      hide From, Step, PrintedOne, TimeOf;
      PrintedOneIsParsed(s, cpu, calls[0], path);
      FromConcat(s, PrintedOne(cpu, calls[0]), Printed(cpu, calls[1..]));
      PrintedIsParsed(From(s, PrintedOne(cpu, calls[0])), cpu, calls[1..], path);
    }
  }

  lemma {:induction false} PrintedOneIsParsed(s: State, cpu: string, c: Call, path: string)
    ensures var next := From(s, PrintedOne(cpu, c));
            && StackOf(next.stacks, cpu) == StackOf(s.stacks, cpu)
            && Amount(next.total, path) == Amount(s.total, path) + TimeOf(StackOf(s.stacks, cpu), c, path)
    decreases c, 0
  {
    hide From, Printed, PathOf, TimeOn;
    var stack := StackOf(s.stacks, cpu);
    match c
    case Plain(func, ns) =>
      FromOne(s, Leaf(cpu, ns, func));
    case Nested(func, ns, inner) =>
      var open, close := Open(cpu, func), Close(cpu, ns, func);
      var inside := Step(s, open);
      FromOne(s, open);
      FromConcat(s, [open], Printed(cpu, inner));
      PrintedIsParsed(inside, cpu, inner, path);
      var before := From(inside, Printed(cpu, inner));
      FromConcat(s, [open] + Printed(cpu, inner), [close]);
      FromOne(before, close);
      assert StackOf(before.stacks, cpu) == stack + [func];
      assert (stack + [func])[..|stack|] == stack;
  }

  /** The time on a path of what every CPU ran. */
  function TimeOnAll(calls: map<string, seq<Call>>, cpus: seq<string>, path: string): nat
    requires forall c | c in cpus :: c in calls
  {
    if cpus == [] then 0 else TimeOnAll(calls, cpus[1..], path) + TimeOn([], calls[cpus[0]], path)
  }

  /** However the lines of the CPUs fall between one another, each path's total is the time of the
      calls that were on it. */
  lemma ParsedIsWhatRan(trace: seq<Line>, cpus: seq<string>, calls: map<string, seq<Call>>, path: string)
    requires Distinct(cpus) && Covers(cpus, trace)
    requires forall c | c in cpus :: c in calls && OnCpu(trace, c) == Printed(c, calls[c])
    ensures Amount(After(trace).total, path) == TimeOnAll(calls, cpus, path)
  {
    hide After;
    TotalsAreSums(trace, cpus, path);
    SummedIsWhatRan(trace, cpus, calls, path);
  }

  lemma {:induction false} SummedIsWhatRan(trace: seq<Line>, cpus: seq<string>, calls: map<string, seq<Call>>,
      path: string)
    requires forall c | c in cpus :: c in calls && OnCpu(trace, c) == Printed(c, calls[c])
    ensures Summed(trace, cpus, path) == TimeOnAll(calls, cpus, path)
  {
    hide From, Printed, OnCpu, TimeOn;
    if cpus != [] {
      assert forall c | c in cpus[1..] :: c in cpus;
      SummedIsWhatRan(trace, cpus[1..], calls, path);
      PrintedIsParsed(BEGIN, cpus[0], calls[cpus[0]], path);
    }
  }

  /** A buffer that began inside calls: what ran, with the closes of calls whose opens were lost. */
  datatype Piece = Piece(calls: seq<Call>, func: string, ns: nat)

  function PrintedPieces(cpu: string, pieces: seq<Piece>): seq<Line> {
    if pieces == [] then [] else
      Printed(cpu, pieces[0].calls) + [Close(cpu, pieces[0].ns, pieces[0].func)] + PrintedPieces(cpu, pieces[1..])
  }

  function TimeOnPieces(pieces: seq<Piece>, path: string): nat {
    if pieces == [] then 0 else TimeOn([], pieces[0].calls, path) + TimeOnPieces(pieces[1..], path)
  }

  /** Such a close puts nothing anywhere, and what ran before and after it is credited in full. */
  lemma {:induction false} LostOpensCostNothing(s: State, cpu: string, pieces: seq<Piece>, path: string)
    requires StackOf(s.stacks, cpu) == []
    ensures var next := From(s, PrintedPieces(cpu, pieces));
            && StackOf(next.stacks, cpu) == []
            && Amount(next.total, path) == Amount(s.total, path) + TimeOnPieces(pieces, path)
    decreases |pieces|
  {
    hide From, Printed, PathOf, TimeOn;
    if pieces == [] {
      FromNone(s);
    } else {
      var p := pieces[0];
      var calls, close := Printed(cpu, p.calls), Close(cpu, p.ns, p.func);
      FromConcat(s, calls + [close], PrintedPieces(cpu, pieces[1..]));
      FromConcat(s, calls, [close]);
      PrintedIsParsed(s, cpu, p.calls, path);
      FromOne(From(s, calls), close);
      LostOpensCostNothing(From(s, calls), cpu, pieces[1..], path);
    }
  }

  lemma FromNone(s: State)
    ensures From(s, []) == s
  {
  }
}
