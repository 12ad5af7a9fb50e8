/** The issue reconciler: the plan it makes of a tracker and the findings of a release. */
module Issues {
  import opened Text
  import opened Sorting
  import opened Findings

  // ----- the issues

  /** An issue as the tracker holds it under its number. */
  datatype Issue = Issue(title: string, open: bool, body: string)

  type Tracker = map<nat, Issue>

  /** An issue as it is listed. */
  datatype Listing = Listing(number: nat, issue: Issue)

  /** A listing of the whole tracker, in whatever order it came. */
  ghost predicate Lists(listing: seq<Listing>, w: Tracker) {
    && (forall l | l in listing :: l.number in w && w[l.number] == l.issue)
    && (forall n | n in w :: exists l | l in listing :: l.number == n)
  }

  ghost predicate IsNewest(w: Tracker, t: string, n: nat) {
    n in w && w[n].title == t && forall m | m in w && w[m].title == t :: m <= n
  }

  /** Which issue a title stands for: of those that carry it, the one of the greatest number. */
  ghost function Newest(w: Tracker, t: string): Option<nat> {
    if exists n :: IsNewest(w, t, n) then
      var n :| IsNewest(w, t, n); Some(n)
    else None
  }

  lemma NewestIs(w: Tracker, t: string, n: nat)
    ensures Newest(w, t) == Some(n) <==> IsNewest(w, t, n)
  {
  }

  // ----- names in order

  function Before(a: string, b: string): bool {
    if a == "" then true
    else if b == "" then false
    else if a[0] != b[0] then a[0] < b[0]
    else Before(a[1..], b[1..])
  }

  /** Names are in the order of their first byte that differs, and a name is before what it begins. */
  lemma {:induction false} BeforeSays(a: string, b: string)
    ensures Before(a, b) <==> a <= b || exists k | 0 <= k < |a| && k < |b| :: a[..k] == b[..k] && a[k] < b[k]
  {
    if a != "" && b != "" {
      if a[0] == b[0] {
        BeforeSays(a[1..], b[1..]);
        assert a == [a[0]] + a[1..] && b == [b[0]] + b[1..];
        if k :| 0 <= k < |a[1..]| && k < |b[1..]| && a[1..][..k] == b[1..][..k] && a[1..][k] < b[1..][k] {
          assert a[..k + 1] == [a[0]] + a[1..][..k] && b[..k + 1] == [b[0]] + b[1..][..k];
          assert a[k + 1] < b[k + 1];
        }
        if k :| 0 <= k < |a| && k < |b| && a[..k] == b[..k] && a[k] < b[k] {
          assert k > 0 && a[1..][..k - 1] == a[..k][1..] && b[1..][..k - 1] == b[..k][1..];
          assert a[1..][k - 1] < b[1..][k - 1];
        }
      } else {
        assert a[..0] == b[..0];
        if k :| 0 <= k < |a| && k < |b| && a[..k] == b[..k] && a[k] < b[k] {
          assert k == 0 || a[..k][0] == b[..k][0];
        }
      }
    }
  }

  lemma {:induction false} BeforeEither(a: string, b: string)
    ensures Before(a, b) || Before(b, a)
    ensures Before(a, b) && Before(b, a) ==> a == b
  {
    if a != "" && b != "" && a[0] == b[0] {
      BeforeEither(a[1..], b[1..]);
      assert a == [a[0]] + a[1..] && b == [b[0]] + b[1..];
    }
  }

  lemma {:induction false} BeforeChains(a: string, b: string, c: string)
    requires Before(a, b) && Before(b, c)
    ensures Before(a, c)
  {
    if a != "" && b != "" && c != "" && a[0] == b[0] == c[0] {
      BeforeChains(a[1..], b[1..], c[1..]);
    }
  }

  lemma BeforeIsTotal()
    ensures TotalOrder(Before)
  {
    forall a: string, b: string ensures (Before(a, b) || Before(b, a)) && (Before(a, b) && Before(b, a) ==> a == b) {
      BeforeEither(a, b);
    }
    forall a: string, b: string, c: string | Before(a, b) && Before(b, c) ensures Before(a, c) {
      BeforeChains(a, b, c);
    }
  }

  /** The elements of a set, each once, in order. */
  ghost predicate InOrder(list: seq<string>, s: set<string>) {
    && Sorted(list, Before)
    && (forall x :: x in list <==> x in s)
    && (forall i, j | 0 <= i < j < |list| :: list[i] != list[j])
  }

  lemma {:induction false} OnceEach(list: seq<string>)
    requires forall i, j | 0 <= i < j < |list| :: list[i] != list[j]
    ensures forall x :: multiset(list)[x] == if x in list then 1 else 0
  {
    if list != [] {
      var rest, last := list[..|list| - 1], list[|list| - 1];
      OnceEach(rest);
      assert list == rest + [last];
    }
  }

  lemma InOrderIsUnique(a: seq<string>, b: seq<string>, s: set<string>)
    requires InOrder(a, s) && InOrder(b, s)
    ensures a == b
  {
    BeforeIsTotal();
    OnceEach(a);
    OnceEach(b);
    assert multiset(a) == multiset(b);
    SortedIsUnique(a, b, Before);
  }

  /** slices.Sort of names each there once. */
  method SortNames(names: seq<string>) returns (list: seq<string>)
    requires forall i, j | 0 <= i < j < |names| :: names[i] != names[j]
    ensures InOrder(list, set x | x in names)
  {
    BeforeIsTotal();
    SortSorts(names, Before);
    list := Sort(names, Before);
    OnceEach(names);
    forall x ensures x in list <==> x in names {
      assert x in multiset(list) <==> x in multiset(names);
    }
    forall i, j | 0 <= i < j < |list| ensures list[i] != list[j] {
      if list[i] == list[j] {
        TwiceCounts(list, i, j);
      }
    }
  }

  lemma TwiceCounts(list: seq<string>, i: nat, j: nat)
    requires i < j < |list| && list[i] == list[j]
    ensures multiset(list)[list[i]] >= 2
  {
    var x := list[i];
    assert list == list[..i] + [x] + list[i + 1..j] + [x] + list[j + 1..];
  }

  // ----- the findings of a package

  /** The findings of one package, in the order they were given. */
  function Of(findings: seq<Finding>, name: string): seq<Finding> {
    if findings == [] then [] else
      Of(findings[..|findings| - 1], name) +
      (if Name(findings[|findings| - 1]) == name then [findings[|findings| - 1]] else [])
  }

  function Names(findings: seq<Finding>): set<string> { set f | f in findings :: Name(f) }

  lemma {:induction false} OfHolds(findings: seq<Finding>, name: string)
    ensures forall f :: f in Of(findings, name) <==> f in findings && Name(f) == name
    ensures Of(findings, name) == [] <==> name !in Names(findings)
  {
    if findings != [] {
      var rest, last := findings[..|findings| - 1], findings[|findings| - 1];
      OfHolds(rest, name);
      assert findings == rest + [last];
    }
  }

  // ----- the plan

  datatype Action =
    | Create(title: string, body: string)
    | Edit(number: nat, title: string, body: string)
    | Reopen(number: nat, title: string, comment: string)
    | Close(number: nat, title: string, comment: string)

  /** The ids of findings an issue's body does not list, in order. */
  function Unlisted(fs: seq<Finding>, body: string): seq<string> {
    if fs == [] then [] else
      Unlisted(fs[..|fs| - 1], body) + (if fs[|fs| - 1].id !in Listed(body) then [fs[|fs| - 1].id] else [])
  }

  function ReopenComment(release: string, ids: seq<string>): string {
    release + " has findings this issue did not list: " + Join(ids, ", ") + "."
  }

  function CloseComment(release: string): string {
    release + " has no finding in this package."
  }

  /** What is done about a package with findings, by its newest issue. */
  function Deal(release: string, name: string, fs: seq<Finding>, have: Option<Listing>): seq<Action> {
    var want := Body(release, fs);
    match have
    case None => [Create(Title(name), want)]
    case Some(Listing(n, i)) =>
      if i.open then if i.body != want then [Edit(n, i.title, want)] else []
      else if Unlisted(fs, i.body) != [] then
        [Reopen(n, i.title, ReopenComment(release, Unlisted(fs, i.body))), Edit(n, i.title, want)]
      else []
  }

  ghost function Have(w: Tracker, t: string): Option<Listing> {
    match Newest(w, t) case None => None case Some(n) => if n in w then Some(Listing(n, w[n])) else None
  }

  ghost function Deals(w: Tracker, release: string, findings: seq<Finding>, names: seq<string>): seq<Action> {
    if names == [] then [] else
      Deals(w, release, findings, names[..|names| - 1]) +
      (var name := names[|names| - 1]; Deal(release, name, Of(findings, name), Have(w, Title(name))))
  }

  const PREFIX := "osv: "

  /** A title of this command's own that stands for a package without findings. */
  predicate IsStale(t: string, findings: seq<Finding>) {
    PREFIX <= t && ' ' !in t[|PREFIX|..] && t[|PREFIX|..] !in Names(findings)
  }

  /** The titles whose newest issue is open with nothing left to say. */
  ghost predicate IsGone(w: Tracker, findings: seq<Finding>, t: string) {
    IsStale(t, findings) && Newest(w, t).Some? && Newest(w, t).value in w && w[Newest(w, t).value].open
  }

  ghost function GoneTitles(w: Tracker, findings: seq<Finding>): set<string> {
    set n | n in w && IsGone(w, findings, w[n].title) :: w[n].title
  }

  ghost function Closes(w: Tracker, release: string, titles: seq<string>): seq<Action> {
    if titles == [] then [] else
      Closes(w, release, titles[..|titles| - 1]) +
      (match Newest(w, titles[|titles| - 1])
       case None => []
       case Some(n) => [Close(n, titles[|titles| - 1], CloseComment(release))])
  }

  /** What a plan for a tracker is, whatever order its issues were listed in and whatever order a
      table of names or titles is walked in. */
  ghost predicate IsPlan(w: Tracker, release: string, findings: seq<Finding>, acts: seq<Action>) {
    exists names, gone ::
      InOrder(names, Names(findings)) && InOrder(gone, GoneTitles(w, findings)) &&
      acts == Deals(w, release, findings, names) + Closes(w, release, gone)
  }

  lemma PlanIsUnique(w: Tracker, release: string, findings: seq<Finding>, a: seq<Action>, b: seq<Action>)
    requires IsPlan(w, release, findings, a) && IsPlan(w, release, findings, b)
    ensures a == b
  {
    hide InOrder, Deals, Closes;
    var names, gone :| InOrder(names, Names(findings)) && InOrder(gone, GoneTitles(w, findings)) &&
      a == Deals(w, release, findings, names) + Closes(w, release, gone);
    var names', gone' :| InOrder(names', Names(findings)) && InOrder(gone', GoneTitles(w, findings)) &&
      b == Deals(w, release, findings, names') + Closes(w, release, gone');
    InOrderIsUnique(names, names', Names(findings));
    InOrderIsUnique(gone, gone', GoneTitles(w, findings));
  }

  /** A table that holds, for every title listed, the issue of the greatest number. */
  ghost predicate Greatest(byTitle: map<string, Listing>, listing: seq<Listing>) {
    && (forall t | t in byTitle :: byTitle[t] in listing && byTitle[t].issue.title == t)
    && (forall l | l in listing :: l.issue.title in byTitle && l.number <= byTitle[l.issue.title].number)
  }

  ghost predicate TableOf(byTitle: map<string, Listing>, w: Tracker) {
    && (forall t :: t in byTitle <==> Have(w, t).Some?)
    && (forall t | t in byTitle :: Have(w, t) == Some(byTitle[t]) && byTitle[t].issue.title == t)
  }

  lemma GreatestIsNewest(byTitle: map<string, Listing>, listing: seq<Listing>, w: Tracker)
    requires Lists(listing, w) && Greatest(byTitle, listing)
    ensures TableOf(byTitle, w)
  {
    hide Newest;
    forall t ensures t in byTitle ==> Have(w, t) == Some(byTitle[t]) {
      if t in byTitle {
        var n := byTitle[t].number;
        forall m | m in w && w[m].title == t ensures m <= n {
          var l :| l in listing && l.number == m;
        }
        assert IsNewest(w, t, n);
        NewestIs(w, t, n);
      }
    }
    forall t ensures Have(w, t).Some? ==> t in byTitle {
      if Have(w, t).Some? {
        var n := Newest(w, t).value;
        NewestIs(w, t, n);
        var l :| l in listing && l.number == n;
      }
    }
  }

  /** The table of each title's newest issue. */
  method ByTitle(listing: seq<Listing>, ghost w: Tracker) returns (byTitle: map<string, Listing>)
    requires Lists(listing, w)
    ensures TableOf(byTitle, w)
  {
    hide Lists, TableOf;
    byTitle := map[];
    for k := 0 to |listing|
      invariant Greatest(byTitle, listing[..k])
    {
      var l := listing[k];
      assert listing[..k + 1] == listing[..k] + [l];
      if l.issue.title !in byTitle || l.number > byTitle[l.issue.title].number {
        byTitle := byTitle[l.issue.title := l];
      }
    }
    assert listing[..|listing|] == listing;
    GreatestIsNewest(byTitle, listing, w);
  }

  method Missing(fs: seq<Finding>, body: string) returns (unlisted: seq<string>)
    ensures unlisted == Unlisted(fs, body)
  {
    hide Listed;
    unlisted := [];
    for i := 0 to |fs|
      invariant unlisted == Unlisted(fs[..i], body)
    {
      assert fs[..i + 1][..i] == fs[..i];
      var ids := Ids(body);
      if fs[i].id !in ids {
        unlisted := unlisted + [fs[i].id];
      }
    }
    assert fs[..|fs|] == fs;
  }

  ghost predicate Grouped(byPkg: map<string, seq<Finding>>, names: seq<string>, findings: seq<Finding>) {
    && (forall name :: name in byPkg <==> name in names)
    && (forall name :: name in byPkg <==> Of(findings, name) != [])
    && (forall name | name in byPkg :: byPkg[name] == Of(findings, name))
    && (forall i, j | 0 <= i < j < |names| :: names[i] != names[j])
  }

  lemma OfAppend(findings: seq<Finding>, f: Finding, name: string)
    ensures Of(findings + [f], name) == Of(findings, name) + (if Name(f) == name then [f] else [])
  {
    hide Name;
    assert (findings + [f])[..|findings|] == findings;
  }

  /** The findings by package, and the names of the packages, each once. */
  method ByPkg(findings: seq<Finding>) returns (byPkg: map<string, seq<Finding>>, names: seq<string>)
    ensures Grouped(byPkg, names, findings)
  {
    hide Name, Of;
    byPkg, names := map[], [];
    forall name ensures Of(findings[..0], name) == [] {
      OfHolds(findings[..0], name);
    }
    for k := 0 to |findings|
      invariant Grouped(byPkg, names, findings[..k])
    {
      var f := findings[k];
      assert findings[..k + 1] == findings[..k] + [f];
      forall name
        ensures Of(findings[..k + 1], name) == Of(findings[..k], name) + (if Name(f) == name then [f] else [])
      {
        OfAppend(findings[..k], f, name);
      }
      var pkg := Name(f);
      if pkg !in byPkg {
        names := names + [pkg];
      }
      byPkg := byPkg[pkg := (if pkg in byPkg then byPkg[pkg] else []) + [f]];
    }
    assert findings[..|findings|] == findings;
  }

  lemma GroupedNames(byPkg: map<string, seq<Finding>>, names: seq<string>, findings: seq<Finding>)
    requires Grouped(byPkg, names, findings)
    ensures byPkg.Keys == Names(findings) == (set x | x in names)
  {
    hide Of, Names;
    forall name ensures name in byPkg <==> name in Names(findings) {
      OfHolds(findings, name);
    }
  }

  method DealAll(release: string, findings: seq<Finding>, names: seq<string>, byPkg: map<string, seq<Finding>>,
                 byTitle: map<string, Listing>, ghost w: Tracker) returns (out: seq<Action>)
    requires TableOf(byTitle, w)
    requires forall i | 0 <= i < |names| :: names[i] in byPkg && byPkg[names[i]] == Of(findings, names[i])
    ensures out == Deals(w, release, findings, names)
  {
    hide Deal, Newest, Of, Have;
    out := [];
    for k := 0 to |names|
      invariant out == Deals(w, release, findings, names[..k])
    {
      assert names[..k + 1][..k] == names[..k];
      var t := Title(names[k]);
      var acts := DealWith(release, names[k], byPkg[names[k]], if t in byTitle then Some(byTitle[t]) else None);
      out := out + acts;
    }
    assert names[..|names|] == names;
  }

  method CloseAll(release: string, gone: seq<string>, byTitle: map<string, Listing>, ghost w: Tracker)
    returns (out: seq<Action>)
    requires TableOf(byTitle, w) && forall i | 0 <= i < |gone| :: gone[i] in byTitle
    ensures out == Closes(w, release, gone)
  {
    hide Newest;
    out := [];
    for k := 0 to |gone|
      invariant out == Closes(w, release, gone[..k])
    {
      assert gone[..k + 1][..k] == gone[..k];
      out := out + [Close(byTitle[gone[k]].number, gone[k], CloseComment(release))];
    }
    assert gone[..|gone|] == gone;
  }

  /** plan. */
  method Plan(release: string, findings: seq<Finding>, listing: seq<Listing>, ghost w: Tracker)
    returns (out: seq<Action>)
    requires Lists(listing, w)
    ensures IsPlan(w, release, findings, out)
  {
    hide Lists, InOrder, Deals, Closes, Newest, IsStale;
    var byPkg, unsorted := ByPkg(findings);
    GroupedNames(byPkg, unsorted, findings);
    var names := SortNames(unsorted);
    var byTitle := ByTitle(listing, w);
    NamesAreIn(names, Names(findings));
    out := DealAll(release, findings, names, byPkg, byTitle, w);
    var gone := CollectGone(byTitle, byPkg.Keys, findings, w);
    NamesAreIn(gone, GoneTitles(w, findings));
    var closes := CloseAll(release, gone, byTitle, w);
    out := out + closes;
  }

  lemma NamesAreIn(list: seq<string>, s: set<string>)
    requires InOrder(list, s)
    ensures forall i | 0 <= i < |list| :: list[i] in s
  {
  }

  /** The body of the loop of plan over the names. */
  method DealWith(release: string, name: string, fs: seq<Finding>, have: Option<Listing>) returns (acts: seq<Action>)
    ensures acts == Deal(release, name, fs, have)
  {
    hide Body, ReopenComment;
    var want := WriteBody(release, fs);
    acts := [];
    if have.None? {
      acts := [Create(Title(name), want)];
    } else if have.value.issue.open {
      if have.value.issue.body != want {
        acts := [Edit(have.value.number, have.value.issue.title, want)];
      }
    } else {
      var i := have.value.issue;
      var unlisted := Missing(fs, i.body);
      if |unlisted| > 0 {
        acts := [Reopen(have.value.number, i.title, ReopenComment(release, unlisted)),
                 Edit(have.value.number, i.title, want)];
      }
    }
  }

  /** The last loops of plan: the titles to close, gathered in whatever order the table gives them
      and then sorted. */
  method CollectGone(byTitle: map<string, Listing>, pkgs: set<string>, findings: seq<Finding>, ghost w: Tracker)
    returns (gone: seq<string>)
    requires pkgs == Names(findings)
    requires TableOf(byTitle, w)
    ensures InOrder(gone, GoneTitles(w, findings))
  {
    hide Newest, Names;
    var titles := byTitle.Keys;
    var found: seq<string> := [];
    while titles != {}
      invariant titles <= byTitle.Keys
      invariant forall t :: t in found <==> t in byTitle && t !in titles && IsGone(w, findings, t)
      invariant forall i, j | 0 <= i < j < |found| :: found[i] != found[j]
      decreases |titles|
    {
      var t :| t in titles;
      titles := titles - {t};
      if PREFIX <= t && byTitle[t].issue.open && ' ' !in t[|PREFIX|..] && t[|PREFIX|..] !in pkgs {
        assert IsGone(w, findings, t);
        found := found + [t];
      }
    }
    gone := SortNames(found);
    assert (set x | x in found) == GoneTitles(w, findings) by {
      forall t ensures t in found <==> t in GoneTitles(w, findings) {
        if IsGone(w, findings, t) && t in byTitle {
          assert w[byTitle[t].number].title == t;
        }
      }
    }
  }
}
