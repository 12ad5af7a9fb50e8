/** The nearest-rank percentile, and the summary of a row's boots it is used in. */
module Percentile {
  import opened Sorting
  import opened Text
  import Console

  function Le(a: int, b: int): bool { a <= b }

  lemma LeIsTotal()
    ensures TotalOrder(Le)
  {
  }

  /** How many samples are not above x. */
  function AtMost(ds: seq<int>, x: int): nat {
    if ds == [] then 0 else (if ds[0] <= x then 1 else 0) + AtMost(ds[1..], x)
  }

  /** The least integer not below x. */
  function Ceil(x: real): int { -((-x).Floor) }

  /** The index of a rank, held to those there are. */
  function Clamped(x: real, n: nat): (i: nat)
    requires n > 0
    ensures i < n
  {
    var i := Ceil(x) - 1;
    var low := if i < 0 then 0 else i;
    if low > n - 1 then n - 1 else low
  }

  /** The position of the p-th percentile of n sorted samples. */
  function Rank(p: real, n: nat): (i: nat)
    requires n > 0
    ensures i < n
  {
    Clamped(Share(p, n), n)
  }

  function Share(p: real, n: nat): real { p * n as real }

  function Of(ds: seq<int>, p: real): Option<int> {
    if ds == [] then None
    else if |Sort(ds, Le)| == |ds| then Some(Sort(ds, Le)[Rank(p, |ds|)]) else None
  }

  // ----- what the nearest rank is

  /** x is the p-th percentile by its definition: the least sample that at least p of all the
      samples are not above. */
  ghost predicate IsNearestRank(ds: seq<int>, p: real, x: int) {
    IsLeastReaching(ds, Share(p, |ds|), x)
  }

  ghost predicate IsLeastReaching(ds: seq<int>, want: real, x: int) {
    && x in ds && AtMost(ds, x) as real >= want
    && forall y | y in ds && AtMost(ds, y) as real >= want :: x <= y
  }

  lemma {:induction false} AtMostOfConcat(a: seq<int>, b: seq<int>, x: int)
    ensures AtMost(a + b, x) == AtMost(a, x) + AtMost(b, x)
  {
    if a == [] {
      assert a + b == b;
    } else {
      assert (a + b)[1..] == a[1..] + b;
      AtMostOfConcat(a[1..], b, x);
    }
  }

  lemma {:induction false} AtMostBounds(a: seq<int>, x: int)
    ensures AtMost(a, x) <= |a|
    ensures (forall k | 0 <= k < |a| :: a[k] <= x) ==> AtMost(a, x) == |a|
    ensures (forall k | 0 <= k < |a| :: a[k] > x) ==> AtMost(a, x) == 0
  {
    if a != [] {
      AtMostBounds(a[1..], x);
    }
  }

  /** In a sorted list the element at i has i and itself not above it, and anything smaller has at
      most i. */
  lemma AtMostOfSorted(s: seq<int>, i: nat, y: int)
    requires Sorted(s, Le) && i < |s|
    ensures AtMost(s, s[i]) >= i + 1
    ensures y < s[i] ==> AtMost(s, y) <= i
  {
    hide AtMost;
    assert s == s[..i + 1] + s[i + 1..] && s == s[..i] + s[i..];
    assert forall k | 0 <= k < i :: Le(s[k], s[i]);
    AtMostOfConcat(s[..i + 1], s[i + 1..], s[i]);
    AtMostBounds(s[..i + 1], s[i]);
    if y < s[i] {
      SmallerBefore(s, i, y);
    }
  }

  lemma SmallerBefore(s: seq<int>, i: nat, y: int)
    requires Sorted(s, Le) && i < |s| && y < s[i]
    ensures AtMost(s, y) <= i
  {
    hide AtMost;
    assert s == s[..i] + s[i..];
    forall k | 0 <= k < |s[i..]| ensures s[i..][k] > y {
      assert k > 0 ==> Le(s[i], s[i + k]);
    }
    AtMostOfConcat(s[..i], s[i..], y);
    AtMostBounds(s[i..], y);
    AtMostBounds(s[..i], y);
  }

  lemma Without(b: seq<int>, k: nat, x: int)
    requires k < |b|
    ensures AtMost(b, x) == AtMost(b[..k] + b[k + 1..], x) + (if b[k] <= x then 1 else 0)
    ensures multiset(b[..k] + b[k + 1..]) == multiset(b) - multiset{b[k]}
  {
    var y, tail := b[k], b[k + 1..];
    assert b == b[..k] + ([y] + tail);
    AtMostOfConcat(b[..k], [y] + tail, x);
    assert ([y] + tail)[1..] == tail;
    AtMostOfConcat(b[..k], tail, x);
  }

  lemma PositionOf(a: seq<int>, b: seq<int>) returns (k: nat)
    requires multiset(a) == multiset(b) && a != []
    ensures k < |b| && b[k] == a[0]
  {
    assert a[0] in multiset(a) && a[0] in multiset(b);
    k :| 0 <= k < |b| && b[k] == a[0];
  }

  lemma {:induction false} AtMostOfPermutation(a: seq<int>, b: seq<int>, x: int)
    requires multiset(a) == multiset(b)
    ensures AtMost(a, x) == AtMost(b, x)
  {
    if a == [] {
      assert |multiset(b)| == |b|;
    } else {
      hide AtMost;
      var k := PositionOf(a, b);
      Without(a, 0, x);
      Without(b, k, x);
      assert a[..0] + a[0 + 1..] == a[1..] && a[0] == b[k];
      AtMostOfPermutation(a[1..], b[..k] + b[k + 1..], x);
    }
  }

  lemma NoMoreThanAll(p: real, n: nat)
    requires n > 0
    ensures p <= 1.0 <==> Share(p, n) <= n as real
  {
    if p > 1.0 {
      assert (p - 1.0) * n as real > 0.0;
    } else {
      NotNegative(1.0 - p, n as real);
      assert (1.0 - p) * n as real == n as real - p * n as real;
    }
  }

  /** The rank is the least count that reaches x of n, when x is no more than all. */
  lemma ClampedIs(x: real, n: nat)
    requires n > 0 && x <= n as real
    ensures (Clamped(x, n) + 1) as real >= x
    ensures Clamped(x, n) > 0 ==> (Clamped(x, n) as real) < x
  {
    var c := Ceil(x);
    assert (c as real) >= x && (c as real) < x + 1.0;
  }

  lemma OfIsSome(ds: seq<int>, p: real)
    requires ds != []
    ensures |Sort(ds, Le)| == |ds| && Of(ds, p) == Some(Sort(ds, Le)[Rank(p, |ds|)])
    ensures Sorted(Sort(ds, Le), Le) && multiset(Sort(ds, Le)) == multiset(ds)
  {
    LeIsTotal();
    SortSorts(ds, Le);
  }

  /** Percentile is the nearest rank of its definition exactly for p no greater than one; above
      that it answers the largest sample, which no definition of a percentile asks for. */
  lemma PercentileIsNearestRank(ds: seq<int>, p: real)
    requires ds != []
    ensures Of(ds, p).Some?
    ensures IsNearestRank(ds, p, Of(ds, p).value) <==> p <= 1.0
  {
    hide Of, Clamped, Sort, IsLeastReaching, Share;
    OfIsSome(ds, p);
    NoMoreThanAll(p, |ds|);
    var want := Share(p, |ds|);
    if want <= |ds| as real {
      ClampedIs(want, |ds|);
      AtRank(ds, Sort(ds, Le), want, Clamped(want, |ds|));
    } else {
      NoneReaches(ds, want, Of(ds, p).value);
    }
  }

  lemma AtRank(ds: seq<int>, s: seq<int>, want: real, i: nat)
    requires Sorted(s, Le) && multiset(s) == multiset(ds) && i < |s|
    requires (i + 1) as real >= want && (i > 0 ==> (i as real) < want)
    ensures IsLeastReaching(ds, want, s[i])
  {
    hide AtMost;
    assert s[i] in multiset(s) && s[i] in multiset(ds);
    AtMostOfPermutation(s, ds, s[i]);
    AtMostOfSorted(s, i, s[i]);
    forall y | y in ds && AtMost(ds, y) as real >= want ensures s[i] <= y {
      if y < s[i] {
        AtMostOfSorted(s, i, y);
        AtMostOfPermutation(s, ds, y);
        AtMostSelf(ds, y);
      }
    }
  }

  lemma NoneReaches(ds: seq<int>, want: real, x: int)
    requires want > |ds| as real
    ensures !IsLeastReaching(ds, want, x)
  {
    AtMostBounds(ds, x);
  }

  lemma {:induction false} AtMostSelf(ds: seq<int>, y: int)
    requires y in ds
    ensures AtMost(ds, y) >= 1
  {
    if ds[0] != y {
      AtMostSelf(ds[1..], y);
    }
  }

  /** It grows with p. */
  lemma PercentileIsMonotone(ds: seq<int>, p: real, q: real)
    requires ds != [] && p <= q
    ensures Of(ds, p).Some? && Of(ds, q).Some? && Of(ds, p).value <= Of(ds, q).value
  {
    hide Of, Rank, Sort;
    OfIsSome(ds, p);
    OfIsSome(ds, q);
    RankIsMonotone(p, q, |ds|);
    var i, j := Rank(p, |ds|), Rank(q, |ds|);
    assert i < j ==> Le(Sort(ds, Le)[i], Sort(ds, Le)[j]);
  }

  lemma RankIsMonotone(p: real, q: real, n: nat)
    requires p <= q && n > 0
    ensures Rank(p, n) <= Rank(q, n)
  {
    hide Clamped;
    NotNegative(q - p, n as real);
    assert (q - p) * n as real == q * n as real - p * n as real;
    ClampedIsMonotone(Share(p, n), Share(q, n), n);
  }

  lemma NotNegative(x: real, y: real)
    requires x >= 0.0 && y >= 0.0
    ensures x * y >= 0.0
  {
  }

  lemma ClampedIsMonotone(x: real, y: real, n: nat)
    requires x <= y && n > 0
    ensures Clamped(x, n) <= Clamped(y, n)
  {
    assert Ceil(x) <= Ceil(y);
  }

  /** It does not depend on the order samples were collected in. */
  lemma PercentileOfPermutation(a: seq<int>, b: seq<int>, p: real)
    requires multiset(a) == multiset(b)
    ensures Of(a, p) == Of(b, p)
  {
    LeIsTotal();
    assert |multiset(a)| == |a| && |multiset(b)| == |b|;
    SortOfPermutation(a, b, Le);
  }

  // ----- the method

  /** Percentile. It sorts a copy and leaves the caller's samples as they were; what it answers is
      the nearest rank by its definition when p asks for no more than all the samples, and the
      largest of them when p asks for more. */
  method Percentile(ds: array<int>, p: real) returns (r: Option<int>)
    ensures r.Some? <==> ds.Length > 0
    ensures r.Some? && p <= 1.0 ==> IsNearestRank(ds[..], p, r.value)
    ensures r.Some? && p > 1.0 ==> r.value in ds[..] && forall x | x in ds[..] :: x <= r.value
    ensures r == Of(ds[..], p)
  {
    hide Of, Sort, IsNearestRank, Rank;
    if ds.Length == 0 {
      NoneOfNone(p);
      assert ds[..] == [];
      return None;
    }
    var s := new int[ds.Length](i requires 0 <= i < ds.Length reads ds => ds[i]);
    assert s[..] == ds[..];
    LeIsTotal();
    SortInPlace(s, Le);
    OfIsSome(ds[..], p);
    PercentileIsNearestRank(ds[..], p);
    if p > 1.0 {
      LargestAbove(ds[..], p);
    }
    return Some(s[Rank(p, s.Length)]);
  }

  lemma NoneOfNone(p: real)
    ensures Of([], p) == None
  {
  }

  /** Above one it is the largest sample. */
  lemma LargestAbove(ds: seq<int>, p: real)
    requires ds != [] && p > 1.0
    ensures Of(ds, p).Some? && Of(ds, p).value in ds && forall x | x in ds :: x <= Of(ds, p).value
  {
    hide Of, Sort, Clamped, Share;
    OfIsSome(ds, p);
    NoMoreThanAll(p, |ds|);
    ClampedLast(Share(p, |ds|), |ds|);
    var s := Sort(ds, Le);
    assert s[|s| - 1] in multiset(s) && multiset(s) == multiset(ds);
    forall x | x in ds ensures x <= s[|s| - 1] {
      assert x in multiset(ds) && x in multiset(s);
      var k :| 0 <= k < |s| && s[k] == x;
      assert k < |s| - 1 ==> Le(s[k], s[|s| - 1]);
    }
  }

  lemma ClampedLast(x: real, n: nat)
    requires n > 0 && x > n as real
    ensures Clamped(x, n) == n - 1
  {
    assert (Ceil(x) as real) >= x;
  }

  /** Asked for twice all of three samples it answers one of them, and none is the nearest rank. */
  lemma NoRankAtTwo()
    ensures Of([1, 2, 3], 2.0).Some? && !IsNearestRank([1, 2, 3], 2.0, Of([1, 2, 3], 2.0).value)
    ensures forall x :: !IsNearestRank([1, 2, 3], 2.0, x)
  {
    hide Of, AtMost;
    var ds := [1, 2, 3];
    PercentileIsNearestRank(ds, 2.0);
    forall x ensures !IsNearestRank(ds, 2.0, x) {
      AtMostBounds(ds, x);
    }
  }

  // ----- Summarise

  const USABLE := Console.USABLE
  const PHASES := 5

  /** One boot: when each phase was reached, in nanoseconds. */
  type Run = map<nat, int>

  datatype Summary = Summary(p50: int, p95: int, n: nat)

  datatype Boot = Boot(boots: nat, failed: nat, error: string, phases: map<nat, Summary>)

  /** ms, in hundredths of a millisecond: microseconds cut towards zero, then a tenth of them
      rounded half away from zero. */
  function Hundredths(ns: int): int {
    var us := if ns >= 0 then ns / 1000 else -(-ns / 1000);
    if us >= 0 then (us + 5) / 10 else -((-us + 5) / 10)
  }

  function Reaching(runs: seq<Run>, p: nat): nat {
    if runs == [] then 0 else Reaching(runs[..|runs| - 1], p) + (if p in runs[|runs| - 1] then 1 else 0)
  }

  function Samples(runs: seq<Run>, p: nat): seq<int> {
    if runs == [] then []
    else Samples(runs[..|runs| - 1], p) + (if p in runs[|runs| - 1] then [runs[|runs| - 1][p]] else [])
  }

  function SummaryOf(ds: seq<int>): Option<Summary> {
    match (Of(ds, 0.5), Of(ds, 0.95))
    case (Some(a), Some(b)) => Some(Summary(Hundredths(a), Hundredths(b), |ds|))
    case _ => None
  }

  /** The time a number of hundredths of a millisecond stands for: cut to whole microseconds towards zero,
      it is nearer to that many tens than to any other, and midway it is the one farther from zero. */
  ghost predicate StandsFor(hundredths: int, ns: int) {
    if ns >= 0 then Rounded(hundredths, ns) else Rounded(-hundredths, -ns)
  }

  ghost predicate Rounded(hundredths: int, ns: int) {
    exists us :: Truncates(us, ns) && 10 * hundredths - 5 <= us < 10 * hundredths + 5
  }

  predicate Truncates(us: int, ns: int) { 1000 * us <= ns < 1000 * us + 1000 }

  lemma HundredthsStandsFor(ns: int)
    ensures StandsFor(Hundredths(ns), ns)
  {
    var us := if ns >= 0 then ns / 1000 else -ns / 1000;
    assert Truncates(us, if ns >= 0 then ns else -ns);
  }

  /** A summary says the median and the 95th percentile of some samples, and how many there are. */
  ghost predicate Summarises(s: Summary, ds: seq<int>) {
    && s.n == |ds| && s.p50 <= s.p95
    && (exists x :: IsNearestRank(ds, 0.5, x) && StandsFor(s.p50, x))
    && (exists x :: IsNearestRank(ds, 0.95, x) && StandsFor(s.p95, x))
  }

  lemma SummaryIs(ds: seq<int>)
    requires SummaryOf(ds).Some?
    ensures Summarises(SummaryOf(ds).value, ds)
  {
    hide Hundredths, StandsFor, IsNearestRank, Of;
    SummaryHolds(ds);
    PercentileIsNearestRank(ds, 0.5);
    PercentileIsNearestRank(ds, 0.95);
    HundredthsStandsFor(Of(ds, 0.5).value);
    HundredthsStandsFor(Of(ds, 0.95).value);
  }

  /** The runs that reached a phase, and those that did at a time. */
  function Reached(runs: seq<Run>, p: nat): set<int> { set i | 0 <= i < |runs| && p in runs[i] }

  function ReachedAt(runs: seq<Run>, p: nat, x: int): set<int> {
    set i | 0 <= i < |runs| && p in runs[i] && runs[i][p] == x
  }

  lemma ReachedNext(runs: seq<Run>, p: nat, x: int)
    requires runs != []
    ensures var last := |runs| - 1;
            && Reached(runs, p) == Reached(runs[..last], p) + (if p in runs[last] then {last} else {})
            && ReachedAt(runs, p, x) ==
               ReachedAt(runs[..last], p, x) + (if p in runs[last] && runs[last][p] == x then {last} else {})
            && last !in Reached(runs[..last], p) && last !in ReachedAt(runs[..last], p, x)
  {
  }

  /** The samples of a phase are the times it was reached at, one of each run that reached it. */
  lemma {:induction false} SamplesAre(runs: seq<Run>, p: nat, x: int)
    ensures |Samples(runs, p)| == Reaching(runs, p) == |Reached(runs, p)|
    ensures multiset(Samples(runs, p))[x] == |ReachedAt(runs, p, x)|
  {
    if runs == [] {
      assert Reached(runs, p) == {} && ReachedAt(runs, p, x) == {};
    } else {
      ReachedNext(runs, p, x);
      hide Reached, ReachedAt;
      SamplesAre(runs[..|runs| - 1], p, x);
    }
  }

  method Summarise(runs: seq<Run>, failure: string) returns (b: Boot)
    ensures b.boots == |runs|
    ensures b.failed + Reaching(runs, USABLE) == b.boots
    ensures b.error == if b.failed > 0 then failure else ""
    ensures forall p: nat :: p in b.phases <==> p < PHASES && Reaching(runs, p) > 0
    ensures forall p | p in b.phases :: Summarises(b.phases[p], Samples(runs, p))
  {
    hide Of, IsNearestRank, Hundredths, Summarises;
    var failed := 0;
    for i := 0 to |runs|
      invariant failed + Reaching(runs[..i], USABLE) == i
    {
      assert runs[..i + 1][..i] == runs[..i];
      if USABLE !in runs[i] {
        failed := failed + 1;
      }
    }
    assert runs[..|runs|] == runs;
    var phases: map<nat, Summary> := map[];
    for p := 0 to PHASES
      invariant forall q: nat :: q in phases <==> q < p && Reaching(runs, q) > 0
      invariant forall q | q in phases ::
                  SummaryOf(Samples(runs, q)) == Some(phases[q]) && Summarises(phases[q], Samples(runs, q))
    {
      var samples := Collected(runs, p);
      ghost var ds := samples[..];
      var p50 := Percentile(samples, 0.5);
      if p50.Some? {
        var p95 := Percentile(samples, 0.95);
        SummaryHolds(ds);
        SummaryIs(ds);
        phases := phases[p := Summary(Hundredths(p50.value), Hundredths(p95.value), samples.Length)];
      } else {
        EmptyHasNone(ds);
      }
    }
    b := Boot(|runs|, failed, if failed > 0 then failure else "", phases);
  }

  /** The loop over the runs: the times of those that reached a phase. */
  method Collected(runs: seq<Run>, p: nat) returns (samples: array<int>)
    ensures fresh(samples) && samples[..] == Samples(runs, p) && samples.Length == Reaching(runs, p)
  {
    var ds: seq<int> := [];
    for i := 0 to |runs|
      invariant ds == Samples(runs[..i], p) && |ds| == Reaching(runs[..i], p)
    {
      assert runs[..i + 1][..i] == runs[..i];
      if p in runs[i] {
        ds := ds + [runs[i][p]];
      }
    }
    assert runs[..|runs|] == runs;
    samples := new int[|ds|](i requires 0 <= i < |ds| => ds[i]);
    assert samples[..] == ds;
  }

  lemma EmptyHasNone(ds: seq<int>)
    ensures Of(ds, 0.5).None? <==> ds == []
  {
    if ds != [] {
      PercentileIsNearestRank(ds, 0.5);
    }
  }

  lemma SummaryHolds(ds: seq<int>)
    requires Of(ds, 0.5).Some?
    ensures ds != [] && Of(ds, 0.95).Some?
    ensures Hundredths(Of(ds, 0.5).value) <= Hundredths(Of(ds, 0.95).value)
  {
    EmptyHasNone(ds);
    PercentileIsNearestRank(ds, 0.95);
    PercentileIsMonotone(ds, 0.5, 0.95);
    HundredthsIsMonotone(Of(ds, 0.5).value, Of(ds, 0.95).value);
  }

  lemma HundredthsIsMonotone(a: int, b: int)
    requires a <= b
    ensures Hundredths(a) <= Hundredths(b)
  {
  }
}
