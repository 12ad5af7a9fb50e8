/** What a plan does to the issues, and what runs over many days come to. */
module Reconcile {
  import opened Text
  import opened Findings
  import opened Issues

  // ----- acting

  /** A new issue under a number greater than every other. */
  ghost predicate CreatesAt(w: Tracker, n: nat, issue: Issue, w': Tracker) {
    (forall m | m in w :: m < n) && w' == w[n := issue]
  }

  /** One action on the tracker. */
  ghost predicate Step(w: Tracker, a: Action, w': Tracker) {
    match a
    case Create(t, body) => exists n: nat :: CreatesAt(w, n, Issue(t, true, body), w')
    case Edit(n, _, body) => n in w && w' == w[n := w[n].(body := body)]
    case Reopen(n, _, _) => n in w && w' == w[n := w[n].(open := true)]
    case Close(n, _, _) => n in w && w' == w[n := w[n].(open := false)]
  }

  ghost predicate StepLast(mid: Tracker, acts: seq<Action>, w': Tracker)
    requires acts != []
  {
    Step(mid, acts[|acts| - 1], w')
  }

  /** Actions carried out one after another. */
  ghost predicate Reaches(w: Tracker, acts: seq<Action>, w': Tracker)
    decreases |acts|
  {
    if acts == [] then w' == w
    else exists mid :: StepLast(mid, acts, w') && Reaches(w, acts[..|acts| - 1], mid)
  }

  lemma {:induction false} ReachesConcat(w: Tracker, a: seq<Action>, b: seq<Action>, w': Tracker) returns (mid: Tracker)
    requires Reaches(w, a + b, w')
    ensures Reaches(w, a, mid) && Reaches(mid, b, w')
    decreases |b|
  {
    hide Step;
    if b == [] {
      assert a + b == a;
      mid := w';
    } else {
      var all := a + b;
      var m :| StepLast(m, all, w') && Reaches(w, all[..|all| - 1], m);
      assert all[..|all| - 1] == a + b[..|b| - 1];
      mid := ReachesConcat(w, a, b[..|b| - 1], m);
      assert StepLast(m, b, w');
    }
  }

  lemma ReachesOne(w: Tracker, a: Action, w': Tracker)
    requires Reaches(w, [a], w')
    ensures Step(w, a, w')
  {
    var mid :| StepLast(mid, [a], w') && Reaches(w, [a][..|[a]| - 1], mid);
    assert [a][..0] == [];
  }

  // ----- one title at a time

  /** The issues of a title are the same in both. */
  ghost predicate SameOn(w: Tracker, w': Tracker, t: string) {
    && (forall n | n in w && w[n].title == t :: n in w' && w'[n] == w[n])
    && (forall n | n in w' && w'[n].title == t :: n in w && w[n] == w'[n])
  }

  lemma SameHave(w: Tracker, w': Tracker, t: string)
    requires SameOn(w, w', t)
    ensures Have(w, t) == Have(w', t)
  {
    forall n ensures IsNewest(w, t, n) <==> IsNewest(w', t, n) {
    }
    forall n: nat ensures Newest(w, t) == Some(n) <==> Newest(w', t) == Some(n) {
      NewestIs(w, t, n);
      NewestIs(w', t, n);
    }
    if Newest(w, t).Some? {
      assert Newest(w', t) == Newest(w, t);
      NewestIs(w, t, Newest(w, t).value);
    }
  }

  lemma HaveIs(w: Tracker, t: string, n: nat)
    requires IsNewest(w, t, n)
    ensures Have(w, t) == Some(Listing(n, w[n]))
  {
    NewestIs(w, t, n);
  }

  lemma HaveSome(w: Tracker, t: string)
    requires Have(w, t).Some?
    ensures IsNewest(w, t, Have(w, t).value.number) && Have(w, t).value.issue == w[Have(w, t).value.number]
  {
    NewestIs(w, t, Have(w, t).value.number);
  }

  /** A package whose newest issue says all there is to say: it is open with just the wanted body,
      or closed and lists every finding. */
  ghost predicate Settled(w: Tracker, release: string, name: string, fs: seq<Finding>) {
    match Have(w, Title(name))
    case None => false
    case Some(l) =>
      if l.issue.open then l.issue.body == Body(release, fs)
      else forall f | f in fs :: f.id in Listed(l.issue.body)
  }

  lemma {:induction false} UnlistedIs(fs: seq<Finding>, body: string)
    ensures Unlisted(fs, body) == [] <==> forall f | f in fs :: f.id in Listed(body)
  {
    hide Listed;
    if fs != [] {
      var rest, last := fs[..|fs| - 1], fs[|fs| - 1];
      UnlistedIs(rest, body);
      assert fs == rest + [last];
    }
  }

  lemma DealIsNothing(w: Tracker, release: string, name: string, fs: seq<Finding>)
    ensures Deal(release, name, fs, Have(w, Title(name))) == [] <==> Settled(w, release, name, fs)
  {
    hide Body, Listed, Have;
    var have := Have(w, Title(name));
    if have.Some? {
      UnlistedIs(fs, have.value.issue.body);
    }
  }

  /** Dealing with a package settles it, and touches no other title. */
  lemma DealSettles(w: Tracker, release: string, name: string, fs: seq<Finding>, w': Tracker)
    requires Reaches(w, Deal(release, name, fs, Have(w, Title(name))), w')
    ensures Settled(w', release, name, fs)
    ensures forall t | t != Title(name) :: SameOn(w, w', t)
  {
    hide Body, Listed, Have, Title, ReopenComment;
    DealIsNothing(w, release, name, fs);
    var t, have, want := Title(name), Have(w, Title(name)), Body(release, fs);
    var acts := Deal(release, name, fs, have);
    if acts == [] {
    } else if have.None? {
      ReachesOne(w, acts[0], w');
      var n: nat :| CreatesAt(w, n, Issue(t, true, want), w');
      HaveIs(w', t, n);
    } else {
      HaveSome(w, t);
      var n := have.value.number;
      var mid := w;
      if |acts| == 2 {
        assert acts == [acts[0]] + [acts[1]];
        mid := ReachesConcat(w, [acts[0]], [acts[1]], w');
        ReachesOne(w, acts[0], mid);
        ReachesOne(mid, acts[1], w');
      } else {
        ReachesOne(w, acts[0], w');
      }
      assert w'[n] == Issue(t, true, want);
      HaveIs(w', t, n);
    }
  }

  ghost predicate SettledAll(w: Tracker, release: string, findings: seq<Finding>, names: seq<string>) {
    forall k | 0 <= k < |names| :: Settled(w, release, names[k], Of(findings, names[k]))
  }

  /** Nothing of a title that is not one of these packages' changed. */
  ghost predicate OnlyFor(w: Tracker, w': Tracker, names: seq<string>) {
    forall t | (forall k | 0 <= k < |names| :: t != Title(names[k])) :: SameOn(w, w', t)
  }

  lemma SettledStays(w: Tracker, w': Tracker, release: string, name: string, fs: seq<Finding>)
    requires Settled(w, release, name, fs) && SameOn(w, w', Title(name))
    ensures Settled(w', release, name, fs)
  {
    hide Body, Listed, Have;
    SameHave(w, w', Title(name));
  }

  lemma TitleIsInjective(a: string, b: string)
    ensures Title(a) == Title(b) ==> a == b
  {
    assert Title(a)[5..] == a && Title(b)[5..] == b;
  }

  lemma SameOnChains(a: Tracker, b: Tracker, c: Tracker, t: string)
    requires SameOn(a, b, t) && SameOn(b, c, t)
    ensures SameOn(a, c, t)
  {
  }

  lemma {:induction false} DealsSettle(w: Tracker, release: string, findings: seq<Finding>, names: seq<string>,
      w': Tracker)
    requires forall i, j | 0 <= i < j < |names| :: names[i] != names[j]
    requires Reaches(w, Deals(w, release, findings, names), w')
    ensures SettledAll(w', release, findings, names) && OnlyFor(w, w', names)
    decreases |names|
  {
    hide Have, Settled, Deal, SameOn, Title, Of;
    if names == [] {
      NothingChanged(w, w');
    } else {
      var rest, name := names[..|names| - 1], names[|names| - 1];
      var fs := Of(findings, name);
      var acts := Deal(release, name, fs, Have(w, Title(name)));
      var mid := ReachesConcat(w, Deals(w, release, findings, rest), acts, w');
      DealsSettle(w, release, findings, rest, mid);
      forall k | 0 <= k < |rest| ensures Title(name) != Title(rest[k]) {
        TitleIsInjective(name, rest[k]);
      }
      SameHave(w, mid, Title(name));
      DealSettles(mid, release, name, fs, w');
      forall k | 0 <= k < |names| ensures Settled(w', release, names[k], Of(findings, names[k])) {
        if k < |rest| {
          SettledStays(mid, w', release, rest[k], Of(findings, rest[k]));
        }
      }
      forall t | (forall k | 0 <= k < |names| :: t != Title(names[k])) ensures SameOn(w, w', t) {
        assert t != Title(names[|names| - 1]);
        assert forall k | 0 <= k < |rest| :: t != Title(rest[k]) by {
          assert forall k | 0 <= k < |rest| :: rest[k] == names[k];
        }
        SameOnChains(w, mid, w', t);
      }
    }
  }

  lemma NothingChanged(w: Tracker, w': Tracker)
    requires w == w'
    ensures forall t :: SameOn(w, w', t)
  {
  }

  // ----- closing

  /** Closing the newest issues of some titles closes those and leaves every other title alone. */
  lemma {:induction false} ClosesClose(w: Tracker, v: Tracker, release: string, gone: seq<string>, v': Tracker)
    requires forall i, j | 0 <= i < j < |gone| :: gone[i] != gone[j]
    requires forall k | 0 <= k < |gone| :: Have(w, gone[k]).Some? && SameOn(w, v, gone[k])
    requires Reaches(v, Closes(w, release, gone), v')
    ensures forall k | 0 <= k < |gone| :: Have(v', gone[k]).Some? && !Have(v', gone[k]).value.issue.open
    ensures forall t | t !in gone :: SameOn(v, v', t)
    decreases |gone|
  {
    hide Have, SameOn, Newest;
    if gone == [] {
      NothingChanged(v, v');
    } else {
      var rest, t := gone[..|gone| - 1], gone[|gone| - 1];
      assert Have(w, t).Some?;
      NewestOfHave(w, t);
      var close := Close(Have(w, t).value.number, t, CloseComment(release));
      var mid := ReachesConcat(v, Closes(w, release, rest), [close], v');
      ClosesClose(w, v, release, rest, mid);
      assert t !in rest;
      SameOnChains(w, v, mid, t);
      SameHave(w, mid, t);
      ReachesOne(mid, close, v');
      CloseCloses(mid, t, close, v');
      forall k | 0 <= k < |gone| ensures Have(v', gone[k]).Some? && !Have(v', gone[k]).value.issue.open {
        if k < |rest| {
          assert gone[k] == rest[k];
          SameHave(mid, v', gone[k]);
        }
      }
      forall u | u !in gone ensures SameOn(v, v', u) {
        assert u != gone[|gone| - 1];
        assert u !in rest;
        SameOnChains(v, mid, v', u);
      }
    }
  }

  lemma NewestOfHave(w: Tracker, t: string)
    requires Have(w, t).Some?
    ensures Newest(w, t) == Some(Have(w, t).value.number)
  {
  }

  lemma CloseCloses(w: Tracker, t: string, close: Action, w': Tracker)
    requires Have(w, t).Some? && close.Close? && close.number == Have(w, t).value.number && Step(w, close, w')
    ensures Have(w', t).Some? && !Have(w', t).value.issue.open
    ensures forall u | u != t :: SameOn(w, w', u)
  {
    hide Have;
    HaveSome(w, t);
    HaveIs(w', t, close.number);
  }

  // ----- one run

  lemma StaleIsNoPackage(t: string, findings: seq<Finding>, name: string)
    requires IsStale(t, findings) && name in Names(findings)
    ensures t != Title(name)
  {
    assert Title(name)[|PREFIX|..] == name;
  }

  lemma GoneHave(w: Tracker, findings: seq<Finding>, t: string)
    ensures t in GoneTitles(w, findings) <==>
            IsStale(t, findings) && Have(w, t).Some? && Have(w, t).value.issue.open
  {
    hide IsStale;
    if IsStale(t, findings) && Have(w, t).Some? && Have(w, t).value.issue.open {
      HaveSome(w, t);
      assert w[Have(w, t).value.number].title == t;
    }
  }

  /** What every run leaves behind: the packages with findings settled, and no open issue left of
      a package without. */
  ghost predicate Reconciled(w: Tracker, release: string, findings: seq<Finding>) {
    && (forall name | name in Names(findings) :: Settled(w, release, name, Of(findings, name)))
    && GoneTitles(w, findings) == {}
  }

  /** A plan carried out reconciles the tracker, and touches only the packages with findings and
      the titles it closes. */
  lemma PlanReconciles(w: Tracker, release: string, findings: seq<Finding>, acts: seq<Action>, w': Tracker)
    requires IsPlan(w, release, findings, acts) && Reaches(w, acts, w')
    ensures Reconciled(w', release, findings)
  {
    hide Deals, Closes, Reaches, InOrder, Settled, Of, Have, SameOn, GoneTitles, IsStale, Names;
    var names, gone :| InOrder(names, Names(findings)) && InOrder(gone, GoneTitles(w, findings)) &&
      acts == Deals(w, release, findings, names) + Closes(w, release, gone);
    InOrderSays(names, Names(findings));
    InOrderSays(gone, GoneTitles(w, findings));
    var mid := ReachesConcat(w, Deals(w, release, findings, names), Closes(w, release, gone), w');
    DealsSettle(w, release, findings, names, mid);
    GoneIsSame(w, release, findings, names, gone, mid, w');
    forall name | name in Names(findings) ensures Settled(w', release, name, Of(findings, name)) {
      var k :| 0 <= k < |names| && names[k] == name;
      forall j | 0 <= j < |gone| ensures gone[j] != Title(name) {
        GoneHave(w, findings, gone[j]);
        StaleIsNoPackage(gone[j], findings, name);
      }
      assert Title(name) !in gone;
      SettledStays(mid, w', release, name, Of(findings, name));
    }
    forall t ensures t !in GoneTitles(w', findings) {
      GoneHave(w', findings, t);
      GoneHave(w, findings, t);
      if t in GoneTitles(w', findings) && t !in gone {
        forall j | 0 <= j < |names| ensures t != Title(names[j]) {
          StaleIsNoPackage(t, findings, names[j]);
        }
        SameOnChains(w, mid, w', t);
        SameHave(w, w', t);
      }
    }
  }

  // ----- a plan can be carried out

  lemma {:induction false} Above(s: set<nat>) returns (n: nat)
    ensures forall m | m in s :: m < n
    decreases |s|
  {
    n := 0;
    if s != {} {
      var x :| x in s;
      var m := Above(s - {x});
      n := if m > x then m else x + 1;
      assert forall y | y in s :: y == x || y in s - {x};
    }
  }

  /** Every issue an action names is one of these. */
  ghost predicate NamesOf(acts: seq<Action>, w: Tracker) { forall a | a in acts && !a.Create? :: a.number in w }

  lemma StepIsPossible(w: Tracker, a: Action) returns (w': Tracker)
    requires !a.Create? ==> a.number in w
    ensures Step(w, a, w') && w.Keys <= w'.Keys
  {
    match a
    case Create(t, body) =>
      var n := Above(w.Keys);
      w' := w[n := Issue(t, true, body)];
      assert CreatesAt(w, n, Issue(t, true, body), w');
    case Edit(n, _, body) => w' := w[n := w[n].(body := body)];
    case Reopen(n, _, _) => w' := w[n := w[n].(open := true)];
    case Close(n, _, _) => w' := w[n := w[n].(open := false)];
  }

  lemma {:induction false} CanBeCarriedOut(w: Tracker, acts: seq<Action>) returns (w': Tracker)
    requires NamesOf(acts, w)
    ensures Reaches(w, acts, w') && w.Keys <= w'.Keys
    decreases |acts|
  {
    hide Step;
    w' := w;
    if acts != [] {
      var rest, last := acts[..|acts| - 1], acts[|acts| - 1];
      assert acts == rest + [last] && last in acts;
      assert forall a | a in rest :: a in acts;
      var mid := CanBeCarriedOut(w, rest);
      w' := StepIsPossible(mid, last);
      assert StepLast(mid, acts, w');
    }
  }

  lemma NamesOfConcat(a: seq<Action>, b: seq<Action>, w: Tracker)
    requires NamesOf(a, w) && NamesOf(b, w)
    ensures NamesOf(a + b, w)
  {
  }

  lemma DealNames(w: Tracker, release: string, name: string, fs: seq<Finding>)
    ensures NamesOf(Deal(release, name, fs, Have(w, Title(name))), w)
  {
    hide Newest, Title, Body, Unlisted, ReopenComment;
  }

  lemma {:induction false} DealsNames(w: Tracker, release: string, findings: seq<Finding>, names: seq<string>)
    ensures NamesOf(Deals(w, release, findings, names), w)
  {
    hide Deal, Have, Of, Title, NamesOf;
    if names == [] {
      NoNames(w);
    } else {
      var last := names[|names| - 1];
      DealsNames(w, release, findings, names[..|names| - 1]);
      DealNames(w, release, last, Of(findings, last));
      NamesOfConcat(Deals(w, release, findings, names[..|names| - 1]),
                    Deal(release, last, Of(findings, last), Have(w, Title(last))), w);
    }
  }

  lemma NoNames(w: Tracker)
    ensures NamesOf([], w)
  {
  }

  lemma {:induction false} ClosesNames(w: Tracker, release: string, titles: seq<string>)
    ensures NamesOf(Closes(w, release, titles), w)
  {
    hide CloseComment;
    if titles != [] {
      var t := titles[|titles| - 1];
      ClosesNames(w, release, titles[..|titles| - 1]);
      if Newest(w, t).Some? {
        NewestIs(w, t, Newest(w, t).value);
      }
    }
  }

  /** Whatever the tracker holds, a plan for it can be carried out to its end, and then it is
      reconciled. */
  lemma PlanCanBeCarriedOut(w: Tracker, release: string, findings: seq<Finding>, acts: seq<Action>)
    returns (w': Tracker)
    requires IsPlan(w, release, findings, acts)
    ensures Reaches(w, acts, w') && Reconciled(w', release, findings)
  {
    hide InOrder, Deals, Closes, NamesOf, Reconciled, Reaches;
    var names, gone :| InOrder(names, Names(findings)) && InOrder(gone, GoneTitles(w, findings)) &&
      acts == Deals(w, release, findings, names) + Closes(w, release, gone);
    DealsNames(w, release, findings, names);
    ClosesNames(w, release, gone);
    NamesOfConcat(Deals(w, release, findings, names), Closes(w, release, gone), w);
    w' := CanBeCarriedOut(w, acts);
    PlanReconciles(w, release, findings, acts, w');
  }

  lemma InOrderSays(list: seq<string>, s: set<string>)
    requires InOrder(list, s)
    ensures forall x :: x in list <==> x in s
    ensures forall i, j | 0 <= i < j < |list| :: list[i] != list[j]
    ensures forall i | 0 <= i < |list| :: list[i] in s
  {
  }

  lemma {:induction false} NoDeals(w: Tracker, release: string, findings: seq<Finding>, names: seq<string>)
    requires forall k | 0 <= k < |names| :: Settled(w, release, names[k], Of(findings, names[k]))
    ensures Deals(w, release, findings, names) == []
  {
    hide Settled, Deal, Of, Have;
    if names != [] {
      var name := names[|names| - 1];
      NoDeals(w, release, findings, names[..|names| - 1]);
      DealIsNothing(w, release, name, Of(findings, name));
    }
  }

  /** The fixpoint: once a plan has been carried out, planning again for the same release and
      findings finds nothing to do. */
  lemma PlanningAgainDoesNothing(w: Tracker, release: string, findings: seq<Finding>, acts: seq<Action>, w': Tracker,
                                 again: seq<Action>)
    requires IsPlan(w, release, findings, acts) && Reaches(w, acts, w')
    requires IsPlan(w', release, findings, again)
    ensures again == []
  {
    PlanReconciles(w, release, findings, acts, w');
    ReconciledNeedsNothing(w', release, findings, again);
  }

  /** Nothing is planned exactly when the tracker already says all there is to say. */
  lemma ReconciledNeedsNothing(w: Tracker, release: string, findings: seq<Finding>, acts: seq<Action>)
    requires IsPlan(w, release, findings, acts)
    ensures Reconciled(w, release, findings) <==> acts == []
  {
    hide Deals, Closes, InOrder, Settled, Of, GoneTitles, Names;
    var names, gone :| InOrder(names, Names(findings)) && InOrder(gone, GoneTitles(w, findings)) &&
      acts == Deals(w, release, findings, names) + Closes(w, release, gone);
    InOrderSays(names, Names(findings));
    InOrderSays(gone, GoneTitles(w, findings));
    if Reconciled(w, release, findings) {
      NoDeals(w, release, findings, names);
      NoneInOrder(gone);
      NoCloses(w, release);
    }
    if acts == [] {
      NothingReached(w);
      PlanReconciles(w, release, findings, acts, w);
    }
  }

  lemma NoneInOrder(list: seq<string>)
    ensures InOrder(list, {}) ==> list == []
  {
    if list != [] {
      assert list[0] in list;
    }
  }

  lemma NothingReached(w: Tracker)
    ensures Reaches(w, [], w)
  {
  }

  lemma NoCloses(w: Tracker, release: string)
    ensures Closes(w, release, []) == []
  {
  }

  // ----- on the issues themselves

  /** A finding is of a package when that is what its own says before the first '@'. */
  predicate IsOf(f: Finding, name: string) { '@' !in name && (f.pkg == name || name + "@" <= f.pkg) }

  /** No finding is of this package. */
  predicate NoneOf(findings: seq<Finding>, name: string) { forall f | f in findings :: !IsOf(f, name) }

  /** n is the issue of the greatest number under a title. */
  ghost predicate IsLatest(w: Tracker, n: nat, title: string) {
    n in w && w[n].title == title && forall m | m in w && m > n :: w[m].title != title
  }

  lemma NameIs(f: Finding, name: string)
    ensures Name(f) == name <==> IsOf(f, name)
  {
    var at := IndexOf(f.pkg, '@');
    IndexOfAbsent(f.pkg[..at], '@');
    if IsOf(f, name) && f.pkg != name {
      var rest := f.pkg[|name| + 1..];
      assert f.pkg == name + ['@'] + rest;
      IndexOfFirst(name, '@', rest);
    } else if f.pkg == name && '@' !in name {
      IndexOfAbsent(name, '@');
    }
  }

  lemma NamesAre(findings: seq<Finding>, name: string)
    ensures name in Names(findings) <==> !NoneOf(findings, name)
  {
    hide Name, IsOf;
    forall f ensures Name(f) == name <==> IsOf(f, name) {
      NameIs(f, name);
    }
  }

  lemma LatestIs(w: Tracker, n: nat, title: string)
    ensures IsLatest(w, n, title) <==> Newest(w, title) == Some(n)
    ensures IsLatest(w, n, title) ==> Have(w, title) == Some(Listing(n, w[n]))
  {
    NewestIs(w, title, n);
  }

  lemma StaleIs(title: string, findings: seq<Finding>)
    ensures IsStale(title, findings) <==>
            exists name :: title == "osv: " + name && ' ' !in name && NoneOf(findings, name)
  {
    hide NoneOf, Names;
    if PREFIX <= title {
      assert title == "osv: " + title[|PREFIX|..];
      NamesAre(findings, title[|PREFIX|..]);
    }
    if name :| title == "osv: " + name && ' ' !in name && NoneOf(findings, name) {
      assert title[|PREFIX|..] == name;
    }
  }

  /** Once a plan has been carried out, the newest issue of a package no finding is in is closed. */
  lemma StaleIssuesAreClosed(w: Tracker, release: string, findings: seq<Finding>, acts: seq<Action>, w': Tracker,
                             name: string, n: nat)
    requires IsPlan(w, release, findings, acts) && Reaches(w, acts, w')
    requires ' ' !in name && NoneOf(findings, name) && IsLatest(w', n, "osv: " + name)
    ensures !w'[n].open
  {
    hide IsPlan, Reaches, NoneOf, Newest, Have, IsLatest, Settled;
    var t := "osv: " + name;
    PlanReconciles(w, release, findings, acts, w');
    StaleIs(t, findings);
    hide IsStale;
    LatestIs(w', n, t);
    assert n in w' && w'[n].title == t by { LatestHas(w', n, t); }
    assert w'[n].open ==> t in GoneTitles(w', findings);
  }

  lemma LatestHas(w: Tracker, n: nat, title: string)
    requires IsLatest(w, n, title)
    ensures n in w && w[n].title == title
  {
  }

  /** For every package with findings there is an issue, and the newest has every finding of it: it is
      open and is written from just those findings, or somebody has closed it and it lists them all. */
  lemma EveryFindingIsAnswered(w: Tracker, release: string, findings: seq<Finding>, acts: seq<Action>, w': Tracker,
                               f: Finding, name: string) returns (n: nat)
    requires IsPlan(w, release, findings, acts) && Reaches(w, acts, w')
    requires f in findings && IsOf(f, name)
    ensures IsLatest(w', n, "osv: " + name)
    ensures w'[n].open ==> w'[n].body == Body(release, Of(findings, name))
    ensures forall g :: g in Of(findings, name) <==> g in findings && IsOf(g, name)
    ensures forall g | g in findings && IsOf(g, name) && (GoodId(g.id) || !w'[n].open) :: g.id in Listed(w'[n].body)
  {
    hide IsPlan, Reaches, Newest, Have, IsLatest, Body, Listed, GoodId, IsOf, Of, Name;
    var t := "osv: " + name;
    PlanReconciles(w, release, findings, acts, w');
    forall g ensures Name(g) == name <==> IsOf(g, name) {
      NameIs(g, name);
    }
    OfHolds(findings, name);
    assert name in Names(findings);
    assert Settled(w', release, name, Of(findings, name));
    n := Have(w', t).value.number;
    HaveSome(w', t);
    NewestIs(w', t, n);
    LatestIs(w', n, t);
    if w'[n].open {
      forall g | g in Of(findings, name) && GoodId(g.id) ensures g.id in Listed(w'[n].body) {
        BodyListsItsFindings(release, Of(findings, name), g);
      }
    }
  }

  /** An issue whose title is no package's, or has a space where a package's name would be, is left as it
      is, if it is not the title of a package with findings. */
  lemma OthersAreLeft(w: Tracker, release: string, findings: seq<Finding>, acts: seq<Action>, w': Tracker, n: nat)
    requires IsPlan(w, release, findings, acts) && Reaches(w, acts, w') && n in w
    requires forall name | w[n].title == "osv: " + name :: ' ' in name && NoneOf(findings, name)
    ensures n in w' && w'[n] == w[n]
  {
    hide Deals, Closes, Reaches, InOrder, SameOn, GoneTitles, IsStale, Names, NoneOf, Have;
    var t := w[n].title;
    var names, gone :| InOrder(names, Names(findings)) && InOrder(gone, GoneTitles(w, findings)) &&
      acts == Deals(w, release, findings, names) + Closes(w, release, gone);
    InOrderSays(names, Names(findings));
    InOrderSays(gone, GoneTitles(w, findings));
    var mid := ReachesConcat(w, Deals(w, release, findings, names), Closes(w, release, gone), w');
    DealsSettle(w, release, findings, names, mid);
    GoneIsSame(w, release, findings, names, gone, mid, w');
    StaleIs(t, findings);
    GoneHave(w, findings, t);
    assert t !in gone;
    forall k | 0 <= k < |names| ensures t != Title(names[k]) {
      NamesAre(findings, names[k]);
    }
    assert SameOn(w, mid, t);
    SameOnChains(w, mid, w', t);
    SameOnSays(w, w', n);
  }

  lemma SameOnSays(w: Tracker, w': Tracker, n: nat)
    requires n in w && SameOn(w, w', w[n].title)
    ensures n in w' && w'[n] == w[n]
  {
  }

  /** Closing touches no other title. */
  lemma GoneIsSame(w: Tracker, release: string, findings: seq<Finding>, names: seq<string>, gone: seq<string>,
                   mid: Tracker, w': Tracker)
    requires InOrder(names, Names(findings)) && InOrder(gone, GoneTitles(w, findings))
    requires OnlyFor(w, mid, names) && Reaches(mid, Closes(w, release, gone), w')
    ensures forall t | t !in gone :: SameOn(mid, w', t)
    ensures forall k | 0 <= k < |gone| :: Have(w', gone[k]).Some? && !Have(w', gone[k]).value.issue.open
  {
    hide Closes, Reaches, InOrder, SameOn, GoneTitles, IsStale, Names, Have;
    InOrderSays(names, Names(findings));
    InOrderSays(gone, GoneTitles(w, findings));
    forall k | 0 <= k < |gone| ensures Have(w, gone[k]).Some? && SameOn(w, mid, gone[k]) {
      assert gone[k] in GoneTitles(w, findings);
      GoneHave(w, findings, gone[k]);
      forall j | 0 <= j < |names| ensures gone[k] != Title(names[j]) {
        StaleIsNoPackage(gone[k], findings, names[j]);
      }
    }
    ClosesClose(w, mid, release, gone, w');
  }

  // ----- many days

  predicate Touches(a: Action, n: nat) { !a.Create? && a.number == n }

  /** What happens to the tracker from day to day: a run for a release, carried out as far as it
      got, or a person closing an issue. */
  datatype Event = Run(release: string, findings: seq<Finding>, acts: seq<Action>, done: nat) | CloseByHand(number: nat)

  ghost predicate Happens(w: Tracker, e: Event, w': Tracker) {
    match e
    case Run(release, findings, acts, done) =>
      IsPlan(w, release, findings, acts) && done <= |acts| && Reaches(w, acts[..done], w')
    case CloseByHand(n) => n in w && w' == w[n := w[n].(open := false)]
  }

  ghost predicate History(w: Tracker, events: seq<Event>, w': Tracker)
    decreases |events|
  {
    if events == [] then w' == w
    else exists mid :: Happens(w, events[0], mid) && History(mid, events[1..], w')
  }

  /** Every finding a run has for a package is one of these. */
  predicate OnlyIds(e: Event, name: string, ids: set<string>) {
    e.Run? ==> forall f | f in e.findings && Name(f) == name :: f.id in ids
  }

  function IdsOf(fs: seq<Finding>): set<string> { set f | f in fs :: f.id }

  /** An issue that answers for a set of ids: closed, a package's, and listing them all. */
  ghost predicate Answers(w: Tracker, n: nat, name: string, ids: set<string>) {
    n in w && !w[n].open && w[n].title == Title(name) && forall id | id in ids :: id in Listed(w[n].body)
  }

  /** Whether anything is to be done about a closed issue, exactly: it is acted on when it is its
      package's newest and some finding of the package is not in it. */
  lemma ClosedIsActedOn(w: Tracker, release: string, findings: seq<Finding>, acts: seq<Action>, n: nat, name: string)
    requires IsPlan(w, release, findings, acts) && n in w && !w[n].open && w[n].title == Title(name)
    ensures (exists a | a in acts :: Touches(a, n)) <==>
            Newest(w, Title(name)) == Some(n) &&
            exists f | f in findings :: Name(f) == name && f.id !in Listed(w[n].body)
  {
    hide Deals, Closes, InOrder, Listed, GoneTitles, Names, Newest, Name, Title;
    var names, gone :| InOrder(names, Names(findings)) && InOrder(gone, GoneTitles(w, findings)) &&
      acts == Deals(w, release, findings, names) + Closes(w, release, gone);
    InOrderSays(names, Names(findings));
    InOrderSays(gone, GoneTitles(w, findings));
    DealsTouch(w, release, findings, names, n, name);
    ClosesTouch(w, release, findings, gone, n);
    NamesOfFindings(findings, name);
    OfHolds(findings, name);
  }

  lemma NamesOfFindings(findings: seq<Finding>, name: string)
    ensures name in Names(findings) <==> exists f | f in findings :: Name(f) == name
  {
  }

  lemma {:induction false} DealsTouch(w: Tracker, release: string, findings: seq<Finding>, names: seq<string>,
      n: nat, name: string)
    requires n in w && !w[n].open && w[n].title == Title(name)
    ensures (exists a | a in Deals(w, release, findings, names) :: Touches(a, n)) <==>
            name in names && Newest(w, Title(name)) == Some(n) &&
            exists f | f in Of(findings, name) :: f.id !in Listed(w[n].body)
  {
    hide Deal, Listed, Newest, Title, Of;
    if names != [] {
      var rest, last := names[..|names| - 1], names[|names| - 1];
      assert names == rest + [last];
      DealsTouch(w, release, findings, rest, n, name);
      DealTouches(w, release, last, Of(findings, last), n, name);
    }
  }

  lemma DealTouches(w: Tracker, release: string, last: string, fs: seq<Finding>, n: nat, name: string)
    requires n in w && !w[n].open && w[n].title == Title(name)
    ensures (exists a | a in Deal(release, last, fs, Have(w, Title(last))) :: Touches(a, n)) <==>
            last == name && Newest(w, Title(name)) == Some(n) && exists f | f in fs :: f.id !in Listed(w[n].body)
  {
    hide Listed, Newest, Body, ReopenComment, Title;
    var have := Have(w, Title(last));
    var acts := Deal(release, last, fs, have);
    TitleIsInjective(last, name);
    if have.Some? {
      HaveSome(w, Title(last));
      UnlistedIs(fs, have.value.issue.body);
      if have.value.number == n && acts != [] {
        assert acts[0] in acts;
      }
    }
    if Newest(w, Title(name)) == Some(n) {
      assert last == name ==> have == Some(Listing(n, w[n]));
    }
  }

  lemma {:induction false} ClosesTouch(w: Tracker, release: string, findings: seq<Finding>, gone: seq<string>, n: nat)
    requires n in w && !w[n].open && forall k | 0 <= k < |gone| :: gone[k] in GoneTitles(w, findings)
    ensures forall a | a in Closes(w, release, gone) :: !Touches(a, n)
  {
    hide Newest, IsStale, GoneTitles;
    if gone != [] {
      var rest, t := gone[..|gone| - 1], gone[|gone| - 1];
      ClosesTouch(w, release, findings, rest, n);
      GoneHave(w, findings, t);
      HaveSome(w, t);
      NewestOfHave(w, t);
    }
  }

  lemma UntouchedByOne(w: Tracker, a: Action, w': Tracker, n: nat)
    requires Step(w, a, w') && n in w && !Touches(a, n)
    ensures n in w' && w'[n] == w[n]
  {
  }

  /** What is not touched does not change. */
  lemma {:induction false} UntouchedStays(w: Tracker, acts: seq<Action>, w': Tracker, n: nat)
    requires Reaches(w, acts, w') && n in w && forall a | a in acts :: !Touches(a, n)
    ensures n in w' && w'[n] == w[n]
    decreases |acts|
  {
    hide Step, Touches;
    if acts != [] {
      var rest, last := acts[..|acts| - 1], acts[|acts| - 1];
      var mid :| StepLast(mid, acts, w') && Reaches(w, rest, mid);
      assert forall a | a in rest :: a in acts;
      UntouchedStays(w, rest, mid, n);
      assert last in acts;
      UntouchedByOne(mid, last, w', n);
    }
  }

  lemma AnswerIsLeftAlone(w: Tracker, e: Event, w': Tracker, n: nat, name: string, ids: set<string>)
    requires Answers(w, n, name, ids) && OnlyIds(e, name, ids) && Happens(w, e, w')
    ensures n in w' && w'[n] == w[n]
    ensures e.Run? ==> forall a | a in e.acts :: !Touches(a, n)
  {
    hide Reaches, IsPlan, Listed, Name, Title, Newest;
    match e {
      case Run(release, findings, acts, done) =>
        ClosedIsActedOn(w, release, findings, acts, n, name);
        assert forall a | a in acts[..done] :: a in acts;
        UntouchedStays(w, acts[..done], w', n);
      case CloseByHand(m) =>
    }
  }

  /** Days: an issue that answers for some ids keeps its answer, and no run acts on it, over any
      sequence of runs and hand closures in which its package never has another id; even when
      runs stop half way. */
  lemma {:induction false} AnswersAreKept(w: Tracker, events: seq<Event>, w': Tracker, n: nat, name: string,
      ids: set<string>)
    requires History(w, events, w') && Answers(w, n, name, ids)
    requires forall e | e in events :: OnlyIds(e, name, ids)
    ensures n in w' && w'[n] == w[n]
    ensures forall e, a | e in events && e.Run? && a in e.acts :: !Touches(a, n)
    decreases |events|
  {
    hide Happens, OnlyIds, Touches;
    if events != [] {
      var e := events[0];
      var mid :| Happens(w, e, mid) && History(mid, events[1..], w');
      assert e in events && events == [e] + events[1..];
      assert forall x | x in events[1..] :: x in events;
      AnswerIsLeftAlone(w, e, mid, n, name, ids);
      AnswersAreKept(mid, events[1..], w', n, name, ids);
    }
  }

  /** Once somebody has closed an issue as this command wrote it for some findings of a package, it
      stays as it is, and no run acts on it, for as long as the package has no others. */
  lemma ClosedStaysClosed(w: Tracker, events: seq<Event>, w': Tracker, n: nat, name: string, release: string,
      fs: seq<Finding>)
    requires History(w, events, w')
    requires n in w && !w[n].open && w[n].title == Title(name) && w[n].body == Body(release, fs)
    requires forall f | f in fs :: GoodId(f.id)
    requires forall e | e in events :: OnlyIds(e, name, IdsOf(fs))
    ensures n in w' && w'[n] == w[n]
    ensures forall e, a | e in events && e.Run? && a in e.acts :: !Touches(a, n)
  {
    hide History, OnlyIds, Touches, Body, Listed, GoodId;
    forall id | id in IdsOf(fs) ensures id in Listed(w[n].body) {
      var f :| f in fs && f.id == id;
      BodyListsItsFindings(release, fs, f);
    }
    AnswersAreKept(w, events, w', n, name, IdsOf(fs));
  }

  // ----- what a plan has in it

  /** What a plan has for a package with findings, from its newest issue: one is created when there is
      none; an open one is edited when its body is not the wanted one; a closed one is reopened and edited
      when it lacks a finding. */
  ghost predicate PlannedFor(w: Tracker, release: string, findings: seq<Finding>, name: string, a: Action) {
    var t, want := "osv: " + name, Body(release, Of(findings, name));
    match a
    case Create(title, body) => title == t && body == want && forall m | m in w :: w[m].title != t
    case Edit(n, title, body) =>
      && title == t && body == want && IsLatest(w, n, t)
      && (if w[n].open then w[n].body != want else Lacks(findings, name, w[n].body))
    case Reopen(n, title, comment) =>
      && title == t && IsLatest(w, n, t) && !w[n].open && Lacks(findings, name, w[n].body)
      && comment == release + " has findings this issue did not list: " +
                    Join(Unlisted(Of(findings, name), w[n].body), ", ") + "."
    case Close(_, _, _) => false
  }

  /** Some finding of a package is not in a body. */
  ghost predicate Lacks(findings: seq<Finding>, name: string, body: string) {
    exists f | f in findings :: IsOf(f, name) && f.id !in Listed(body)
  }

  /** What a plan closes: the newest issue, when it is open, of a name without a space that no finding is
      of. */
  ghost predicate PlannedToClose(w: Tracker, release: string, findings: seq<Finding>, name: string, a: Action) {
    && a.Close? && a.title == "osv: " + name && ' ' !in name && NoneOf(findings, name)
    && IsLatest(w, a.number, a.title) && w[a.number].open
    && a.comment == release + " has no finding in this package."
  }

  lemma LacksIs(findings: seq<Finding>, name: string, body: string)
    ensures Lacks(findings, name, body) <==> Unlisted(Of(findings, name), body) != []
  {
    hide Listed, Name, IsOf;
    forall f ensures Name(f) == name <==> IsOf(f, name) {
      NameIs(f, name);
    }
    OfHolds(findings, name);
    UnlistedIs(Of(findings, name), body);
  }

  lemma DealSays(w: Tracker, release: string, findings: seq<Finding>, name: string, a: Action)
    ensures a in Deal(release, name, Of(findings, name), Have(w, Title(name))) <==>
            PlannedFor(w, release, findings, name, a)
  {
    hide Body, Listed, Of, Unlisted, Lacks, Newest, Have, NoneOf, IsLatest;
    var t, have := "osv: " + name, Have(w, Title(name));
    if have.Some? {
      var n := have.value.number;
      HaveSome(w, t);
      NewestIs(w, t, n);
      LatestIs(w, n, t);
      LatestHas(w, n, t);
      LacksIs(findings, name, w[n].body);
      forall m: nat ensures IsLatest(w, m, t) <==> m == n {
        LatestIs(w, m, t);
      }
    } else {
      forall m: nat ensures !IsLatest(w, m, t) {
        LatestIs(w, m, t);
      }
      forall m | m in w ensures w[m].title != t {
        if w[m].title == t {
          var n := SomeIsLatest(w, t, m);
        }
      }
    }
  }

  lemma {:induction false} GreatestOf(s: set<nat>) returns (n: nat)
    requires s != {}
    ensures n in s && forall m | m in s :: m <= n
    decreases |s|
  {
    n :| n in s;
    if s != {n} {
      var m := GreatestOf(s - {n});
      assert forall k | k in s :: k == n || k in s - {n};
      n := if m > n then m else n;
    }
  }

  /** Of a title that is there, some issue is the newest. */
  lemma SomeIsLatest(w: Tracker, title: string, m: nat) returns (n: nat)
    requires m in w && w[m].title == title
    ensures IsLatest(w, n, title)
  {
    var all := set k | k in w && w[k].title == title;
    assert m in all;
    n := GreatestOf(all);
    assert forall k | k in w && w[k].title == title :: k in all;
  }

  lemma {:induction false} DealsHold(w: Tracker, release: string, findings: seq<Finding>, names: seq<string>, a: Action)
    ensures a in Deals(w, release, findings, names) <==>
            exists name | name in names :: PlannedFor(w, release, findings, name, a)
  {
    hide Deal, Have, Of, Title, PlannedFor;
    if names != [] {
      var rest, last := names[..|names| - 1], names[|names| - 1];
      DealsHold(w, release, findings, rest, a);
      DealSays(w, release, findings, last, a);
      assert names == rest + [last];
      assert forall name :: name in names <==> name in rest || name == last;
    }
  }

  lemma {:induction false} ClosesHold(w: Tracker, release: string, titles: seq<string>, a: Action)
    ensures a in Closes(w, release, titles) <==>
            a.Close? && a.title in titles && Newest(w, a.title) == Some(a.number) && a.comment == CloseComment(release)
  {
    hide Newest, CloseComment;
    if titles != [] {
      var rest, last := titles[..|titles| - 1], titles[|titles| - 1];
      ClosesHold(w, release, rest, a);
      assert titles == rest + [last];
    }
  }

  lemma CloseSays(w: Tracker, release: string, findings: seq<Finding>, a: Action)
    requires a.Close?
    ensures (exists name :: PlannedToClose(w, release, findings, name, a)) <==>
            && a.title in GoneTitles(w, findings) && Newest(w, a.title) == Some(a.number)
            && a.comment == CloseComment(release)
  {
    hide Newest, Have, NoneOf, IsLatest, GoneTitles;
    StaleIs(a.title, findings);
    hide IsStale;
    GoneHave(w, findings, a.title);
    LatestIs(w, a.number, a.title);
    if Newest(w, a.title) == Some(a.number) {
      LatestHas(w, a.number, a.title);
    }
    if IsStale(a.title, findings) {
      var name :| a.title == "osv: " + name && ' ' !in name && NoneOf(findings, name);
      if a.title in GoneTitles(w, findings) && Newest(w, a.title) == Some(a.number) &&
         a.comment == CloseComment(release) {
        assert PlannedToClose(w, release, findings, name, a);
      }
    }
  }

  /** Just what a plan has in it, of each kind of action. */
  lemma PlanHolds(w: Tracker, release: string, findings: seq<Finding>, acts: seq<Action>, a: Action)
    requires IsPlan(w, release, findings, acts)
    ensures a in acts <==>
            || (exists name :: !NoneOf(findings, name) && PlannedFor(w, release, findings, name, a))
            || (exists name :: PlannedToClose(w, release, findings, name, a))
  {
    hide Deals, Closes, InOrder, GoneTitles, Names, NoneOf, PlannedFor, PlannedToClose, Newest;
    var names, gone :| InOrder(names, Names(findings)) && InOrder(gone, GoneTitles(w, findings)) &&
      acts == Deals(w, release, findings, names) + Closes(w, release, gone);
    InOrderSays(names, Names(findings));
    InOrderSays(gone, GoneTitles(w, findings));
    DealsHold(w, release, findings, names, a);
    forall name ensures name in names <==> !NoneOf(findings, name) {
      NamesAre(findings, name);
    }
    ClosesHold(w, release, gone, a);
    if a.Close? {
      CloseSays(w, release, findings, a);
    } else {
      OnlyClosesClose(w, release, findings, a);
    }
  }

  lemma OnlyClosesClose(w: Tracker, release: string, findings: seq<Finding>, a: Action)
    requires !a.Close?
    ensures forall name :: !PlannedToClose(w, release, findings, name, a)
  {
  }

  lemma PlannedIsLatest(w: Tracker, release: string, findings: seq<Finding>, name: string, a: Action)
    requires PlannedFor(w, release, findings, name, a) || PlannedToClose(w, release, findings, name, a)
    ensures !a.Create? ==> IsLatest(w, a.number, a.title)
  {
    hide Body, IsLatest, Lacks, NoneOf, Unlisted;
  }

  /** No issue but the newest of its title is ever changed. */
  lemma OlderIssuesAreLeft(w: Tracker, release: string, findings: seq<Finding>, acts: seq<Action>, w': Tracker,
                           n: nat, newer: nat)
    requires IsPlan(w, release, findings, acts) && Reaches(w, acts, w')
    requires n in w && newer in w && newer > n && w[newer].title == w[n].title
    ensures n in w' && w'[n] == w[n]
  {
    hide IsPlan, Reaches, PlannedFor, PlannedToClose, NoneOf;
    forall a | a in acts ensures !Touches(a, n) {
      PlanHolds(w, release, findings, acts, a);
      var name :| PlannedFor(w, release, findings, name, a) || PlannedToClose(w, release, findings, name, a);
      PlannedIsLatest(w, release, findings, name, a);
    }
    UntouchedStays(w, acts, w', n);
  }
}
