/** The streaming console matcher: phases stamped from a window over arbitrary reads. */
module Console {
  import opened Text

  type Phase = nat

  /** What one Read of the console gave: its bytes, how it ended, and the time on the clock if it
      gave any. */
  datatype End = More | Eof | Failed(error: int)
  datatype Read = Read(data: string, end: End, at: int)

  /** The markers of each phase. */
  type Markers = seq<seq<string>>

  const MARKERS: Markers := [
    ["SeaBIOS"], ["Linux version"], ["Run /sbin/init as init process"], ["Startup finished"], ["login:"]]

  const READ_SIZE := 32 * 1024

  // ----- searching

  predicate At(s: string, m: string, i: int) {
    0 <= i <= |s| - |m| && s[i..i + |m|] == m
  }

  /** bytes.Contains. */
  predicate Contains(s: string, m: string) {
    exists i | 0 <= i <= |s| - |m| :: At(s, m, i)
  }

  predicate Holds(s: string, ms: seq<string>) {
    exists k | 0 <= k < |ms| :: Contains(s, ms[k])
  }

  function LongestOf(ms: seq<string>): nat {
    if ms == [] then 0 else
      var m := ms[|ms| - 1];
      Max(LongestOf(ms[..|ms| - 1]), if m == "" then 0 else |m| - 1)
  }

  /** What the longest marker may still lack when its last byte is yet to come. */
  function Overlap(markers: Markers): nat {
    if markers == [] then 0 else Max(Overlap(markers[..|markers| - 1]), LongestOf(markers[|markers| - 1]))
  }

  /** The package's computation of overlap, over every marker of every phase. */
  method ComputeOverlap(markers: Markers) returns (n: nat)
    ensures n == Overlap(markers)
  {
    n := 0;
    for p := 0 to |markers|
      invariant n == Overlap(markers[..p])
    {
      var ms := markers[p];
      for k := 0 to |ms|
        invariant n == Max(Overlap(markers[..p]), LongestOf(ms[..k]))
      {
        assert ms[..k + 1][..k] == ms[..k];
        n := if |ms[k]| - 1 > n then |ms[k]| - 1 else n;
      }
      assert ms[..|ms|] == ms;
      assert markers[..p + 1][..p] == markers[..p];
    }
    assert markers[..|markers|] == markers;
  }

  /** For the markers of this package it is 29, one less than the line the kernel starts init with. */
  lemma OverlapOfMarkers()
    ensures Overlap(MARKERS) == 29
  {
    hide Overlap, LongestOf;
    var a, b, c, d, e := "SeaBIOS", "Linux version", "Run /sbin/init as init process", "Startup finished", "login:";
    OverlapOfFive(a, b, c, d, e);
    assert MARKERS == [[a], [b], [c], [d], [e]];
  }

  lemma OverlapOfFive(a: string, b: string, c: string, d: string, e: string)
    requires |a| == 7 && |b| == 13 && |c| == 30 && |d| == 16 && |e| == 6
    ensures Overlap([[a], [b], [c], [d], [e]]) == 29
  {
    hide Overlap, LongestOf;
    NoOverlap();
    OverlapNext([], a);
    assert [] + [[a]] == [[a]];
    OverlapNext([[a]], b);
    assert [[a]] + [[b]] == [[a], [b]];
    OverlapNext([[a], [b]], c);
    assert [[a], [b]] + [[c]] == [[a], [b], [c]];
    OverlapNext([[a], [b], [c]], d);
    assert [[a], [b], [c]] + [[d]] == [[a], [b], [c], [d]];
    OverlapNext([[a], [b], [c], [d]], e);
    assert [[a], [b], [c], [d]] + [[e]] == [[a], [b], [c], [d], [e]];
  }

  lemma NoOverlap()
    ensures Overlap([]) == 0
  {
  }

  lemma OverlapNext(markers: Markers, m: string)
    requires m != ""
    ensures Overlap(markers + [[m]]) == Max(Overlap(markers), |m| - 1)
  {
    var ms := [m];
    assert ms[..|ms| - 1] == [];
    assert LongestOf(ms) == Max(LongestOf([]), |m| - 1);
    var all := markers + [ms];
    assert all[..|all| - 1] == markers;
  }

  lemma {:induction false} LongestBounds(ms: seq<string>, k: nat)
    requires k < |ms|
    ensures |ms[k]| <= LongestOf(ms) + 1
  {
    if k < |ms| - 1 {
      LongestBounds(ms[..|ms| - 1], k);
    }
  }

  lemma {:induction false} OverlapBounds(markers: Markers, p: nat, k: nat)
    requires p < |markers| && k < |markers[p]|
    ensures |markers[p][k]| <= Overlap(markers) + 1
  {
    if p == |markers| - 1 {
      LongestBounds(markers[p], k);
    } else {
      OverlapBounds(markers[..|markers| - 1], p, k);
    }
  }

  function Last(s: string, n: nat): string {
    if |s| <= n then s else s[|s| - n..]
  }

  // ----- what has been read

  /** Everything the first n reads gave. */
  function Prefix(console: seq<Read>, n: nat): string
    requires n <= |console|
  {
    if n == 0 then "" else Prefix(console, n - 1) + console[n - 1].data
  }

  /** Read k gave bytes, and with them everything read so far holds a marker. */
  predicate Hit(console: seq<Read>, ms: seq<string>, k: nat)
    requires k < |console|
  {
    |console[k].data| > 0 && Holds(Prefix(console, k + 1), ms)
  }

  /** The first of the first n reads that is a hit, or n. */
  function FirstHit(console: seq<Read>, ms: seq<string>, n: nat): (k: nat)
    requires n <= |console|
    ensures k <= n && (k < n ==> Hit(console, ms, k)) && forall j | 0 <= j < k :: !Hit(console, ms, j)
  {
    if n == 0 then 0 else
      var k := FirstHit(console, ms, n - 1);
      if k < n - 1 || Hit(console, ms, n - 1) then k else n
  }

  /** Read k is one Watch returns after: the one that completes until, or one that ends. */
  predicate Stops(console: seq<Read>, markers: Markers, until: Phase, k: nat)
    requires k < |console|
  {
    (until < |markers| && Hit(console, markers[until], k)) || console[k].end != More
  }

  predicate Returns(console: seq<Read>, markers: Markers, until: Phase) {
    exists k | 0 <= k < |console| :: Stops(console, markers, until, k)
  }

  predicate FitsBuffer(console: seq<Read>) {
    forall k | 0 <= k < |console| :: |console[k].data| <= READ_SIZE
  }

  /** The stamps of a run are those of its first n reads: a phase is there exactly when one of
      them completed a marker of it, with the time of the first that did. */
  predicate Stamped(at: map<Phase, int>, console: seq<Read>, markers: Markers, n: nat)
    requires n <= |console|
  {
    && (forall p | p in at :: p < |markers|)
    && (forall p | 0 <= p < |markers| :: StampedAt(at, console, markers[p], p, n))
  }

  predicate StampedAt(at: map<Phase, int>, console: seq<Read>, ms: seq<string>, p: Phase, n: nat)
    requires n <= |console|
  {
    && (p in at <==> FirstHit(console, ms, n) < n)
    && (p in at ==> at[p] == console[FirstHit(console, ms, n)].at)
  }

  /** New bytes are put behind what the window holds, in the room that is left of it. */
  method Push(window: array<char>, length: nat, data: string) returns (grown: nat)
    requires length + |data| <= window.Length
    modifies window
    ensures grown == length + |data| && window[..grown] == old(window[..length]) + data
  {
    forall i | 0 <= i < |data| { window[length + i] := data[i]; }
    grown := length + |data|;
  }

  /** Of a window longer than the overlap only the last bytes are kept, moved to its beginning. */
  method Trim(window: array<char>, length: nat, overlap: nat) returns (kept: nat)
    requires length <= window.Length
    modifies window
    ensures kept <= overlap && kept <= window.Length && window[..kept] == Last(old(window[..length]), overlap)
  {
    kept := length;
    if length > overlap {
      forall i | 0 <= i < overlap { window[i] := window[length - overlap + i]; }
      kept := overlap;
      ghost var was := old(window[..length]);
      assert forall i | 0 <= i < overlap :: window[..kept][i] == was[length - overlap..][i];
      assert window[..kept] == was[length - overlap..];
    }
  }

  /** Watch. The window is a buffer of fixed size: that every write to it is inside it is that
      the source's slice never outgrows the capacity it was made with. */
  method Watch(console: seq<Read>, markers: Markers, until: Phase)
    returns (at: map<Phase, int>, output: string, err: End, n: nat)
    requires FitsBuffer(console) && Returns(console, markers, until)
    ensures 0 < n <= |console| && Stops(console, markers, until, n - 1)
    ensures forall k | 0 <= k < n - 1 :: !Stops(console, markers, until, k)
    ensures output == Prefix(console, n)
    ensures Stamped(at, console, markers, n)
    ensures err == if until in at then More else console[n - 1].end
  {
    hide Stamped, Stops, Hit, Holds, FirstHit, Overlap, Last, Returns;
    at, output, err, n := map[], "", More, 0;
    var overlap := ComputeOverlap(markers);
    var window := new char[overlap + READ_SIZE];
    var length: nat := 0;
    ReturnsLater(console, markers, until, 0);
    NothingStamped(console, markers);
    LastOfNothing(overlap);
    assert window[..0] == "";
    while true
      invariant 0 <= n < |console|
      invariant forall k | 0 <= k < n :: !Stops(console, markers, until, k)
      invariant output == Prefix(console, n)
      invariant Stamped(at, console, markers, n)
      invariant length <= overlap < window.Length && window[..length] == Last(output, overlap)
      invariant until !in at
      decreases |console| - n
    {
      var read := console[n];
      n := n + 1;
      LastConcat(output, read.data, overlap);
      output := output + read.data;
      if |read.data| > 0 {
        length := Push(window, length, read.data);
        at := StampAll(at, window[..length], read.at, console, markers, n);
        length := Trim(window, length, overlap);
      } else {
        StampedStays(at, console, markers, n);
        assert output == Prefix(console, n - 1);
      }
      UntilStops(at, console, markers, until, n);
      if until in at {
        return;
      }
      if read.end != More {
        err := read.end;
        return;
      }
      ReturnsLater(console, markers, until, n);
    }
  }

  /** The inner loops: the phases not yet stamped, looked for in the window. */
  method StampAll(before: map<Phase, int>, window: string, now: int, ghost console: seq<Read>, markers: Markers,
      ghost n: nat)
    returns (at: map<Phase, int>)
    requires 0 < n <= |console| && |console[n - 1].data| > 0 && console[n - 1].at == now
    requires Stamped(before, console, markers, n - 1)
    requires window == Last(Prefix(console, n - 1), Overlap(markers)) + console[n - 1].data
    ensures Stamped(at, console, markers, n)
  {
    hide Hit, Prefix, Last, Overlap, Contains, FirstHit;
    at := before;
    for p := 0 to |markers|
      invariant forall q | q in at :: q < |markers|
      invariant forall q | 0 <= q < p :: StampedAt(at, console, markers[q], q, n)
      invariant forall q | p <= q < |markers| :: StampedAt(at, console, markers[q], q, n - 1)
    {
      ghost var was := at;
      FirstHitNext(console, markers[p], n - 1);
      if p !in at {
        var found := FindAny(window, markers[p]);
        WindowSees(console, markers, p, n - 1);
        if found {
          at := at[p := now];
        }
      }
      forall q | 0 <= q < p ensures StampedAt(at, console, markers[q], q, n) {
        assert StampedAt(was, console, markers[q], q, n);
      }
      forall q | p < q < |markers| ensures StampedAt(at, console, markers[q], q, n - 1) {
        assert StampedAt(was, console, markers[q], q, n - 1);
      }
    }
  }

  method FindAny(window: string, ms: seq<string>) returns (found: bool)
    ensures found <==> Holds(window, ms)
  {
    for k := 0 to |ms|
      invariant forall j | 0 <= j < k :: !Contains(window, ms[j])
    {
      if Contains(window, ms[k]) {
        return true;
      }
    }
    return false;
  }

  // ----- proofs

  lemma NothingStamped(console: seq<Read>, markers: Markers)
    ensures Stamped(map[], console, markers, 0)
  {
  }

  lemma LastOfNothing(n: nat)
    ensures Last("", n) == ""
  {
  }

  lemma FirstHitNext(console: seq<Read>, ms: seq<string>, n: nat)
    requires n < |console|
    ensures FirstHit(console, ms, n + 1) ==
            if FirstHit(console, ms, n) < n || Hit(console, ms, n) then FirstHit(console, ms, n) else n + 1
  {
  }

  lemma StampedStays(at: map<Phase, int>, console: seq<Read>, markers: Markers, n: nat)
    requires 0 < n <= |console| && |console[n - 1].data| == 0 && Stamped(at, console, markers, n - 1)
    ensures Stamped(at, console, markers, n)
  {
    forall p | 0 <= p < |markers| ensures StampedAt(at, console, markers[p], p, n) {
      FirstHitNext(console, markers[p], n - 1);
      assert StampedAt(at, console, markers[p], p, n - 1);
    }
  }

  lemma UntilStops(at: map<Phase, int>, console: seq<Read>, markers: Markers, until: Phase, n: nat)
    requires 0 < n <= |console| && Stamped(at, console, markers, n)
    requires forall k | 0 <= k < n - 1 :: !Stops(console, markers, until, k)
    ensures Stops(console, markers, until, n - 1) <==> until in at || console[n - 1].end != More
  {
    if until < |markers| {
      assert StampedAt(at, console, markers[until], until, n);
      var k := FirstHit(console, markers[until], n);
      if k < n - 1 {
        assert Stops(console, markers, until, k);
      }
    }
  }

  lemma ReturnsLater(console: seq<Read>, markers: Markers, until: Phase, n: nat)
    requires n <= |console| && Returns(console, markers, until)
    requires forall k | 0 <= k < n :: !Stops(console, markers, until, k)
    ensures n < |console|
  {
  }

  lemma LastConcat(a: string, d: string, n: nat)
    ensures Last(a + d, n) == Last(Last(a, n) + d, n)
  {
    var x, y := a + d, Last(a, n) + d;
    if |y| > n {
      assert x[|x| - n..] == y[|y| - n..];
    } else {
      assert |a| <= n || d == "";
    }
  }

  /** What the window holds is what a search of everything read would find: a marker that is in
      everything read and was not before the last read is in the window. */
  lemma SeenInWindow(a: string, d: string, m: string, n: nat)
    requires |m| <= n + 1 && d != ""
    ensures Contains(Last(a, n) + d, m) ==> Contains(a + d, m)
    ensures Contains(a + d, m) ==> Contains(a, m) || Contains(Last(a, n) + d, m)
  {
    var w := Last(a, n) + d;
    var shift := |a + d| - |w|;
    assert (a + d)[shift..] == w;
    if Contains(w, m) {
      var i :| 0 <= i <= |w| - |m| && At(w, m, i);
      assert (a + d)[shift + i..shift + i + |m|] == w[i..i + |m|];
      assert At(a + d, m, shift + i);
    }
    if Contains(a + d, m) {
      var i :| 0 <= i <= |a + d| - |m| && At(a + d, m, i);
      if i >= shift {
        assert w[i - shift..i - shift + |m|] == (a + d)[i..i + |m|];
        assert At(w, m, i - shift);
      } else {
        assert a[i..i + |m|] == (a + d)[i..i + |m|];
        assert At(a, m, i);
      }
    }
  }

  /** Everything read so far, when it is something, was completed by a read that gave bytes. */
  lemma {:induction false} HoldsSoFar(console: seq<Read>, ms: seq<string>, n: nat)
    requires n <= |console| && Prefix(console, n) != "" && Holds(Prefix(console, n), ms)
    ensures FirstHit(console, ms, n) < n
  {
    hide Holds;
    if console[n - 1].data == "" {
      assert Prefix(console, n) == Prefix(console, n - 1) + "" == Prefix(console, n - 1);
      HoldsSoFar(console, ms, n - 1);
    } else {
      assert Hit(console, ms, n - 1);
    }
  }

  lemma WindowSees(console: seq<Read>, markers: Markers, p: nat, n: nat)
    requires n < |console| && p < |markers| && |console[n].data| > 0
    requires FirstHit(console, markers[p], n) == n
    ensures var window := Last(Prefix(console, n), Overlap(markers)) + console[n].data;
            Hit(console, markers[p], n) <==> Holds(window, markers[p])
  {
    var a, d, ms := Prefix(console, n), console[n].data, markers[p];
    var window := Last(a, Overlap(markers)) + d;
    forall k | 0 <= k < |ms| ensures Contains(a + d, ms[k]) <==> Contains(window, ms[k]) {
      OverlapBounds(markers, p, k);
      SeenInWindow(a, d, ms[k], Overlap(markers));
      if Contains(a, ms[k]) {
        if a != "" {
          HoldsSoFar(console, ms, n);
        } else {
          assert At(window, ms[k], 0);
        }
      }
    }
  }

  // ----- what it comes to

  /** How the console is cut into reads does not matter to which phases a boot reached: any two runs
      that read the same bytes, wherever and for whatever reason each of them stopped, stamp the same
      phases. */
  lemma CutsDoNotMatter(a: seq<Read>, n: nat, b: seq<Read>, m: nat, markers: Markers,
                        at: map<Phase, int>, at': map<Phase, int>)
    requires n <= |a| && m <= |b| && Prefix(a, n) == Prefix(b, m)
    requires Stamped(at, a, markers, n) && Stamped(at', b, markers, m)
    ensures at.Keys == at'.Keys
  {
    forall p | 0 <= p < |markers| ensures p in at <==> p in at' {
      if Prefix(a, n) == "" {
        NoBytesNoHit(a, markers[p], n);
        NoBytesNoHit(b, markers[p], m);
      } else {
        ReachedIffHeld(a, markers[p], n);
        ReachedIffHeld(b, markers[p], m);
      }
      assert StampedAt(at, a, markers[p], p, n) && StampedAt(at', b, markers[p], p, m);
    }
  }

  lemma {:induction false} NoBytesNoHit(console: seq<Read>, ms: seq<string>, n: nat)
    requires n <= |console| && Prefix(console, n) == ""
    ensures FirstHit(console, ms, n) == n
  {
    hide Holds;
    if n > 0 {
      NoBytesNoHit(console, ms, n - 1);
    }
  }

  /** Nor does it matter to whether a run gets to the phase it waits for: on two consoles of the same
      bytes, none of whose reads ends before the last, Watch reaches until on both or on neither; and
      it does exactly when the bytes hold a marker of it. */
  lemma UntilIsReachedEitherWay(a: seq<Read>, n: nat, b: seq<Read>, m: nat, markers: Markers, until: Phase,
                                at: map<Phase, int>, at': map<Phase, int>)
    requires EndsLast(a) && EndsLast(b) && Prefix(a, |a|) == Prefix(b, |b|) != "" && until < |markers|
    requires FirstStop(a, markers, until, n) && FirstStop(b, markers, until, m)
    requires Stamped(at, a, markers, n) && Stamped(at', b, markers, m)
    ensures until in at <==> Holds(Prefix(a, |a|), markers[until])
    ensures until in at <==> until in at'
  {
    UntilIsReached(a, n, markers, until, at);
    UntilIsReached(b, m, markers, until, at');
  }

  predicate EndsLast(console: seq<Read>) { forall k | 0 <= k < |console| - 1 :: console[k].end == More }

  predicate FirstStop(console: seq<Read>, markers: Markers, until: Phase, n: nat) {
    0 < n <= |console| && Stops(console, markers, until, n - 1) && forall k | 0 <= k < n - 1 ::
        !Stops(console, markers, until, k)
  }

  lemma UntilIsReached(console: seq<Read>, n: nat, markers: Markers, until: Phase, at: map<Phase, int>)
    requires EndsLast(console) && Prefix(console, |console|) != "" && until < |markers|
    requires FirstStop(console, markers, until, n) && Stamped(at, console, markers, n)
    ensures until in at <==> Holds(Prefix(console, |console|), markers[until])
  {
    hide Hit, Holds;
    var ms, all := markers[until], |console|;
    ReachedIffHeld(console, ms, all);
    assert StampedAt(at, console, ms, until, n);
    var k := FirstHit(console, ms, all);
    if k < all {
      assert Stops(console, markers, until, k);
      assert k >= n - 1;
      HitsAgree(console, ms, n, all);
    } else {
      HitsAgree(console, ms, n, all);
    }
  }

  /** The first hit among more reads is the first among fewer, when it is one of them. */
  lemma {:induction false} HitsAgree(console: seq<Read>, ms: seq<string>, n: nat, m: nat)
    requires n <= m <= |console|
    ensures FirstHit(console, ms, n) < n <==> FirstHit(console, ms, m) < n
    decreases m
  {
    hide Hit;
    if n < m {
      HitsAgree(console, ms, n, m - 1);
    }
  }

  lemma ReachedIffHeld(console: seq<Read>, ms: seq<string>, n: nat)
    requires n <= |console| && Prefix(console, n) != ""
    ensures FirstHit(console, ms, n) < n <==> Holds(Prefix(console, n), ms)
  {
    hide FirstHit, Holds, Prefix;
    var k := FirstHit(console, ms, n);
    if k < n {
      PrefixGrows(console, k + 1, n);
      HoldsGrows(Prefix(console, k + 1), Prefix(console, n), ms);
    }
    if Holds(Prefix(console, n), ms) {
      HoldsSoFar(console, ms, n);
    }
  }

  lemma {:induction false} PrefixGrows(console: seq<Read>, i: nat, j: nat)
    requires i <= j <= |console|
    ensures |Prefix(console, i)| <= |Prefix(console, j)| && Prefix(console, j)[..|Prefix(console, i)|] ==
              Prefix(console, i)
    decreases j
  {
    if i < j {
      PrefixGrows(console, i, j - 1);
      var x := Prefix(console, j - 1);
      assert (x + console[j - 1].data)[..|Prefix(console, i)|] == x[..|Prefix(console, i)|];
    }
  }

  lemma HoldsGrows(a: string, b: string, ms: seq<string>)
    requires |a| <= |b| && b[..|a|] == a && Holds(a, ms)
    ensures Holds(b, ms)
  {
    hide Contains;
    var k :| 0 <= k < |ms| && Contains(a, ms[k]);
    ContainsGrows(a, b, ms[k]);
  }

  lemma ContainsGrows(a: string, b: string, m: string)
    requires |a| <= |b| && b[..|a|] == a && Contains(a, m)
    ensures Contains(b, m)
  {
    var i :| 0 <= i <= |a| - |m| && At(a, m, i);
    assert b[i..i + |m|] == a[i..i + |m|];
    assert At(b, m, i);
  }

  // ----- in the console's own text

  /** A text has another somewhere in it. */
  ghost predicate Shows(text: string, m: string) { exists before, after :: text == before + m + after }

  ghost predicate ShowsAny(text: string, ms: seq<string>) { exists m | m in ms :: Shows(text, m) }

  lemma ShowsIs(text: string, m: string)
    ensures Shows(text, m) <==> Contains(text, m)
  {
    if before, after :| text == before + m + after {
      assert text[|before|..|before| + |m|] == m;
      assert At(text, m, |before|);
    }
    if Contains(text, m) {
      var i :| 0 <= i <= |text| - |m| && At(text, m, i);
      assert text == text[..i] + m + text[i + |m|..];
    }
  }

  lemma ShowsAnyIs(text: string, ms: seq<string>)
    ensures ShowsAny(text, ms) <==> Holds(text, ms)
  {
    hide Shows, Contains;
    forall m ensures Shows(text, m) <==> Contains(text, m) {
      ShowsIs(text, m);
    }
    if m :| m in ms && Shows(text, m) {
      var k :| 0 <= k < |ms| && ms[k] == m;
      assert Contains(text, ms[k]);
    }
    if Holds(text, ms) {
      var k :| 0 <= k < |ms| && Contains(text, ms[k]);
      assert ms[k] in ms;
    }
  }

  /** A phase is stamped with the time of the read that first brought a marker of it: with that read the text
      shows one, and before it, as far as there was a text, it showed none. */
  lemma StampIsFirst(at: map<Phase, int>, console: seq<Read>, markers: Markers, n: nat, p: Phase) returns (k: nat)
    requires n <= |console| && Stamped(at, console, markers, n) && p in at
    ensures k < n && at[p] == console[k].at && ShowsAny(Prefix(console, k + 1), markers[p])
    ensures forall j | 0 <= j <= k && Prefix(console, j) != "" :: !ShowsAny(Prefix(console, j), markers[p])
  {
    hide Holds, ShowsAny, Prefix, FirstHit;
    assert StampedAt(at, console, markers[p], p, n);
    k := FirstHit(console, markers[p], n);
    ShowsAnyIs(Prefix(console, k + 1), markers[p]);
    assert Hit(console, markers[p], k);
    forall j | 0 <= j <= k && Prefix(console, j) != "" ensures !ShowsAny(Prefix(console, j), markers[p]) {
      ShowsAnyIs(Prefix(console, j), markers[p]);
      if Holds(Prefix(console, j), markers[p]) {
        HoldsSoFar(console, markers[p], j);
      }
    }
  }

  const FIRMWARE: Phase := 0
  const KERNEL: Phase := 1
  const PID1: Phase := 2
  const STARTED: Phase := 3
  const USABLE: Phase := 4

  /** What each phase of a boot is known by, on a console that showed something. */
  lemma PhasesAreShown(at: map<Phase, int>, console: seq<Read>, n: nat)
    requires n <= |console| && Stamped(at, console, MARKERS, n)
    ensures FIRMWARE in at <==> Shows(Prefix(console, n), "SeaBIOS")
    ensures KERNEL in at <==> Shows(Prefix(console, n), "Linux version")
    ensures PID1 in at <==> Shows(Prefix(console, n), "Run /sbin/init as init process")
    ensures STARTED in at <==> Shows(Prefix(console, n), "Startup finished")
    ensures USABLE in at <==> Shows(Prefix(console, n), "login:")
    ensures forall p | p in at :: p <= USABLE
  {
    hide Holds, Prefix, Shows;
    PhaseIsShown(at, console, n, 0, "SeaBIOS");
    PhaseIsShown(at, console, n, 1, "Linux version");
    PhaseIsShown(at, console, n, 2, "Run /sbin/init as init process");
    PhaseIsShown(at, console, n, 3, "Startup finished");
    PhaseIsShown(at, console, n, 4, "login:");
  }

  lemma PhaseIsShown(at: map<Phase, int>, console: seq<Read>, n: nat, p: Phase, m: string)
    requires n <= |console| && Stamped(at, console, MARKERS, n) && p < |MARKERS| && MARKERS[p] == [m] && m != ""
    ensures p in at <==> Shows(Prefix(console, n), m)
  {
    hide Holds, Prefix, Shows, MARKERS, FirstHit;
    ShowsAnyIs(Prefix(console, n), [m]);
    assert ShowsAny(Prefix(console, n), [m]) <==> Shows(Prefix(console, n), m) by { assert [m][0] == m; }
    assert StampedAt(at, console, [m], p, n);
    if Prefix(console, n) != "" {
      ReachedIffHeld(console, [m], n);
    } else {
      NoBytesNoHit(console, [m], n);
      NothingShown(m);
    }
  }

  lemma NothingShown(m: string)
    requires m != ""
    ensures !Shows("", m)
  {
  }

  /** Where Watch stops: at the first read that ends the console or brings a marker of the phase it waits
      for, and at no read before. */
  lemma WatchEnds(console: seq<Read>, markers: Markers, until: Phase, n: nat)
    requires 0 < n <= |console| && Stops(console, markers, until, n - 1)
    requires forall k | 0 <= k < n - 1 :: !Stops(console, markers, until, k)
    ensures console[n - 1].end != More || (until < |markers| && ShowsAny(Prefix(console, n), markers[until]))
    ensures forall k | 0 <= k < n - 1 :: console[k].end == More
    ensures until < |markers| ==>
              forall k | 0 <= k < n && Prefix(console, k) != "" :: !ShowsAny(Prefix(console, k), markers[until])
  {
    hide Holds, Prefix, ShowsAny;
    forall k | 0 <= k < n - 1 ensures console[k].end == More {
      assert !Stops(console, markers, until, k);
    }
    if until < |markers| {
      ShowsAnyIs(Prefix(console, n), markers[until]);
      forall k | 0 <= k < n - 1 ensures !Hit(console, markers[until], k) {
        assert !Stops(console, markers, until, k);
      }
      forall k | 0 <= k < n && Prefix(console, k) != "" ensures !ShowsAny(Prefix(console, k), markers[until]) {
        ShowsAnyIs(Prefix(console, k), markers[until]);
        if Holds(Prefix(console, k), markers[until]) {
          HoldsSoFar(console, markers[until], k);
        }
      }
    }
  }
}
