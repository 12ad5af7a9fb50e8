/** The text an issue keeps its findings in: how body writes it and how ids reads it back. */
module Findings {
  import opened Text

  datatype Finding = Finding(id: string, pkg: string, summary: string)

  /** The package without its version. */
  function Name(f: Finding): string {
    match Cut(f.pkg, '@') case None => f.pkg case Some((before, _)) => before
  }

  function Title(name: string): string { "osv: " + name }

  // ----- reading

  /** What every link to a finding holds before the finding's id. */
  const MARK := "osv.dev/vulnerability/"

  /** The bytes an id may hold: neither ')' nor what a regular expression calls a space. */
  predicate InId(c: char) {
    c != ')' && c != ' ' && c != '\t' && c != '\n' && c as int != 12 && c != '\r'
  }

  function IdLength(s: string): (n: nat)
    ensures n <= |s| && (forall i | 0 <= i < n :: InId(s[i])) && (n < |s| ==> !InId(s[n]))
  {
    if s == "" || !InId(s[0]) then 0 else 1 + IdLength(s[1..])
  }

  predicate LinkAt(s: string) {
    MARK <= s && IdLength(s[|MARK|..]) > 0
  }

  /** Every id a text links to: leftmost links first, each as long as it can be, none inside
      another. */
  function Listed(s: string): seq<string>
    decreases |s|
  {
    if s == "" then []
    else if LinkAt(s) then
      var n := |MARK| + IdLength(s[|MARK|..]);
      [s[|MARK|..n]] + Listed(s[n..])
    else Listed(s[1..])
  }

  /** issue.ids. */
  method Ids(body: string) returns (ids: seq<string>)
    ensures ids == Listed(body)
  {
    hide LinkAt;
    ids := [];
    var i := 0;
    assert body[0..] == body;
    while i < |body|
      invariant 0 <= i <= |body|
      invariant ids + Listed(body[i..]) == Listed(body)
    {
      var s := body[i..];
      if LinkAt(s) {
        LinkFits(s);
        var n := |MARK| + IdLength(s[|MARK|..]);
        ids := ids + [s[|MARK|..n]];
        assert s[n..] == body[i + n..];
        i := i + n;
      } else {
        assert s[1..] == body[i + 1..];
        i := i + 1;
      }
    }
  }

  lemma LinkFits(s: string)
    requires LinkAt(s)
    ensures |MARK| <= |s|
  {
  }

  // ----- writing

  /** The packages of the findings as they are in the release, each once, in order. */
  function Pkgs(fs: seq<Finding>): seq<string> {
    if fs == [] then [] else
      var before := Pkgs(fs[..|fs| - 1]);
      if fs[|fs| - 1].pkg in before then before else before + [fs[|fs| - 1].pkg]
  }

  /** What the header says after the packages. */
  const EXPLANATION := " with the findings below."

  function Header(release: string, pkgs: seq<string>): string {
    release + ", the newest release, has `" + Join(pkgs, "`, `") + "`" + EXPLANATION + "\n"
  }

  function Bullet(id: string): string {
    "- [" + id + "](https://"
  }

  function After(f: Finding): string {
    ")" + (if f.summary != "" then ": " + f.summary else "")
  }

  /** One line a finding, without the newline that ends it. */
  function Entry(f: Finding): string {
    Bullet(f.id) + (MARK + f.id + After(f))
  }

  function Entries(fs: seq<Finding>): string {
    if fs == [] then "" else Entries(fs[..|fs| - 1]) + Entry(fs[|fs| - 1]) + "\n"
  }

  function Body(release: string, fs: seq<Finding>): string {
    Header(release, Pkgs(fs)) + "\n" + Entries(fs)
  }

  /** body. */
  method WriteBody(release: string, fs: seq<Finding>) returns (b: string)
    ensures b == Body(release, fs)
  {
    hide Header, Entry;
    var pkgs: seq<string> := [];
    for i := 0 to |fs|
      invariant pkgs == Pkgs(fs[..i])
    {
      assert fs[..i + 1][..i] == fs[..i];
      if fs[i].pkg !in pkgs {
        pkgs := pkgs + [fs[i].pkg];
      }
    }
    assert fs[..|fs|] == fs;
    b := Header(release, pkgs) + "\n";
    ghost var header := b;
    for i := 0 to |fs|
      invariant b == header + Entries(fs[..i])
    {
      assert fs[..i + 1][..i] == fs[..i];
      ghost var so := Entries(fs[..i]);
      b := b + Entry(fs[i]) + "\n";
      assert header + so + Entry(fs[i]) + "\n" == header + (so + Entry(fs[i]) + "\n");
    }
  }

  /** The line a finding has: a link to it under its id, and its summary when it has one. */
  function LineOf(f: Finding): string {
    "- [" + f.id + "](https://osv.dev/vulnerability/" + f.id + ")" + if f.summary != "" then ": " + f.summary else ""
  }

  lemma LineIs(f: Finding)
    ensures Entry(f) == LineOf(f)
  {
    assert "](https://" + MARK == "](https://osv.dev/vulnerability/";
    assert Bullet(f.id) + (MARK + f.id + After(f)) == "- [" + f.id + ("](https://" + MARK) + f.id + After(f);
  }

  function LinesOf(fs: seq<Finding>): (r: seq<string>)
    ensures |r| == |fs| && forall k | 0 <= k < |fs| :: r[k] == LineOf(fs[k])
  {
    if fs == [] then [] else LinesOf(fs[..|fs| - 1]) + [LineOf(fs[|fs| - 1])]
  }

  lemma {:induction false} EntriesAreLines(head: seq<string>, fs: seq<Finding>)
    requires head != []
    ensures Join(head, "\n") + "\n" + Entries(fs) == Join(head + LinesOf(fs) + [""], "\n")
  {
    hide Join, LineOf, Entry;
    if fs == [] {
      JoinLast(head, "", "\n");
      assert head + LinesOf(fs) == head;
    } else {
      var rest, last := fs[..|fs| - 1], fs[|fs| - 1];
      EntriesAreLines(head, rest);
      LineIs(last);
      var lines := head + LinesOf(rest);
      JoinLast(lines, "", "\n");
      JoinLast(lines, LineOf(last), "\n");
      JoinLast(lines + [LineOf(last)], "", "\n");
      assert head + LinesOf(fs) == lines + [LineOf(last)];
      var so := Join(head, "\n") + "\n";
      assert Join(lines, "\n") + "\n" + "" == Join(lines, "\n") + "\n";
      assert so + (Entries(rest) + LineOf(last) + "\n") == so + Entries(rest) + LineOf(last) + "\n" + "";
    }
  }

  lemma {:induction false} PkgsAre(fs: seq<Finding>)
    ensures Distinct(Pkgs(fs)) && forall p :: p in Pkgs(fs) <==> exists f | f in fs :: f.pkg == p
  {
    if fs != [] {
      var rest, last := fs[..|fs| - 1], fs[|fs| - 1];
      PkgsAre(rest);
      assert fs == rest + [last];
    }
  }

  /** A body is the header, which names the release and each package of the findings once, an empty line, and
      then one line a finding, in their order. */
  lemma BodyIsLines(release: string, fs: seq<Finding>) returns (pkgs: seq<string>)
    ensures Body(release, fs) ==
            Join([release + ", the newest release, has `" + Join(pkgs, "`, `") + "`" + EXPLANATION, ""] +
                 LinesOf(fs) + [""], "\n")
    ensures Distinct(pkgs) && forall p :: p in pkgs <==> exists f | f in fs :: f.pkg == p
  {
    hide LinesOf, LineOf, Entry, Entries, Pkgs;
    pkgs := Pkgs(fs);
    PkgsAre(fs);
    var header := release + ", the newest release, has `" + Join(pkgs, "`, `") + "`" + EXPLANATION;
    EntriesAreLines([header, ""], fs);
    JoinLast([header], "", "\n");
    assert [header] + [""] == [header, ""];
    assert Join([header, ""], "\n") + "\n" == Header(release, pkgs) + "\n";
  }

  // ----- what is written is read back

  /** A text holds the beginning of a link. */
  predicate HoldsMark(s: string) { exists k | 0 <= k <= |s| - |MARK| :: MARK <= s[k..] }

  /** An id that reads back: some bytes an id may hold, without the beginning of a link among them. */
  predicate GoodId(id: string) { id != "" && (forall i | 0 <= i < |id| :: InId(id[i])) && !HoldsMark(id) }

  lemma MarkIs()
    ensures |MARK| == 22 && MARK[0] == 'o' && MARK[7] == '/'
    ensures forall i | 0 <= i < |MARK| :: MARK[i] != ']' && MARK[i] != '\n'
  {
  }

  lemma {:induction false} IdLengthOf(id: string, rest: string)
    requires (forall i | 0 <= i < |id| :: InId(id[i])) && rest != "" && !InId(rest[0])
    ensures IdLength(id + rest) == |id|
  {
    if id != "" {
      assert (id + rest)[1..] == id[1..] + rest;
      IdLengthOf(id[1..], rest);
    } else {
      assert id + rest == rest;
    }
  }

  /** No link starts inside the part of a line before its own link, whatever the id is. */
  lemma NoLinkInBullet(id: string, rest: string, k: nat)
    requires GoodId(id) && k < |Bullet(id)|
    ensures !LinkAt((Bullet(id) + rest)[k..])
  {
    hide LinkAt;
    var s := (Bullet(id) + rest)[k..];
    MarkIs();
    BulletIs(id);
    assert s[0] == Bullet(id)[k];
    if k < 3 || k >= 3 + |id| {
      NotPrefix(MARK, s, 0);
    } else if MARK <= s {
      MarkInBullet(id, rest, k);
    }
    NoMarkNoLink(s);
  }

  lemma MarkFits(s: string, n: nat)
    requires MARK <= s && n < |s| && s[n] == ']'
    ensures |MARK| <= n
  {
    MarkIs();
    PrefixAgrees(MARK, s, n);
  }

  /** A mark that begins inside the id is inside it altogether: it has no ']' to end the id with. */
  lemma MarkInBullet(id: string, rest: string, k: nat)
    requires 3 <= k < 3 + |id|
    requires MARK <= (Bullet(id) + rest)[k..]
    ensures HoldsMark(id)
  {
    hide Bullet;
    MarkIs();
    BulletIs(id);
    var s := (Bullet(id) + rest)[k..];
    assert s[|id| + 3 - k] == Bullet(id)[3 + |id|];
    MarkFits(s, |id| + 3 - k);
    forall i | 0 <= i < |MARK| ensures MARK[i] == id[k - 3..][i] {
      assert s[i] == Bullet(id)[k + i] == id[k - 3 + i];
      PrefixAgrees(MARK, s, i);
    }
    assert MARK <= id[k - 3..];
  }

  lemma NotPrefix(m: string, s: string, i: nat)
    requires i < |m| && (i < |s| ==> s[i] != m[i])
    ensures !(m <= s)
  {
  }

  lemma NoMarkNoLink(s: string)
    ensures !(MARK <= s) ==> !LinkAt(s)
  {
  }

  lemma BulletIs(id: string)
    ensures |Bullet(id)| == |id| + 13
    ensures forall i | 0 <= i < 3 :: Bullet(id)[i] != 'o'
    ensures forall i | 0 <= i < |id| :: Bullet(id)[3 + i] == id[i]
    ensures Bullet(id)[3 + |id|] == ']'
    ensures forall i | 3 + |id| <= i < |id| + 13 :: Bullet(id)[i] != 'o'
  {
  }

  lemma {:induction false} SkipBullet(id: string, rest: string, k: nat)
    requires GoodId(id) && k <= |Bullet(id)|
    ensures Listed((Bullet(id) + rest)[k..]) == Listed(rest)
    decreases |Bullet(id)| - k
  {
    hide LinkAt, Bullet;
    var s := Bullet(id) + rest;
    if k == |Bullet(id)| {
      assert s[k..] == rest;
    } else {
      NoLinkInBullet(id, rest, k);
      assert s[k..][1..] == s[k + 1..];
      SkipBullet(id, rest, k + 1);
    }
  }

  lemma EntryLists(f: Finding, more: string)
    requires GoodId(f.id)
    ensures f.id in Listed(Entry(f) + more)
  {
    hide Bullet;
    var rest := After(f) + more;
    var link := MARK + f.id + rest;
    assert Entry(f) + more == Bullet(f.id) + link;
    SkipBullet(f.id, link, 0);
    assert (Bullet(f.id) + link)[0..] == Bullet(f.id) + link;
    LinkIsListed(f.id, rest);
  }

  lemma LinkIsListed(id: string, rest: string)
    requires GoodId(id) && rest != "" && rest[0] == ')'
    ensures id in Listed(MARK + id + rest)
  {
    var link := MARK + id + rest;
    IdLengthOf(id, rest);
    assert MARK <= link && link[|MARK|..] == id + rest;
    assert link[|MARK|..|MARK| + |id|] == id;
    assert Listed(link)[0] == id;
  }

  lemma {:induction false} ListedAreIds(s: string)
    ensures forall x | x in Listed(s) :: x != "" && forall i | 0 <= i < |x| :: InId(x[i])
    decreases |s|
  {
    if s != "" {
      hide LinkAt;
      if LinkAt(s) {
        LinkFits(s);
        LinkIsId(s);
        ListedAreIds(s[|MARK| + IdLength(s[|MARK|..])..]);
      } else {
        ListedAreIds(s[1..]);
      }
    }
  }

  lemma LinkIsId(s: string)
    requires LinkAt(s) && |MARK| <= |s|
    ensures IdLength(s[|MARK|..]) > 0
    ensures var x := s[|MARK|..|MARK| + IdLength(s[|MARK|..])]; x != "" && forall i | 0 <= i < |x| :: InId(x[i])
  {
  }

  /** A mark inside the id, at m of the line, starts a link that runs on to the end of the line. */
  lemma {:induction false} MarkedLine(id: string, k: nat, m: nat)
    requires forall i | 0 <= i < |id| :: InId(id[i])
    requires k <= m && 3 <= m && m + |MARK| <= 3 + |id| && MARK <= (Bullet(id) + (MARK + id + ")"))[m..]
    ensures forall x | x in Listed((Bullet(id) + (MARK + id + ")"))[k..]) :: |x| > |id|
    decreases m - k
  {
    hide LinkAt, Bullet;
    var line := Bullet(id) + (MARK + id + ")");
    BulletIs(id);
    if k == m {
      LongLink(id, k);
    } else if LinkAt(line[k..]) {
      if k < 3 {
        assert line[k..][0] == Bullet(id)[k];
        MarkIs();
        NotPrefix(MARK, line[k..], 0);
        NoMarkNoLink(line[k..]);
      } else {
        LinkFits(line[k..]);
        LinkStarts(line[k..]);
        LongLink(id, k);
      }
    } else {
      assert line[k..][1..] == line[k + 1..];
      MarkedLine(id, k + 1, m);
    }
  }

  lemma LinkStarts(s: string)
    requires LinkAt(s)
    ensures MARK <= s
  {
  }

  lemma LongLink(id: string, k: nat)
    requires forall i | 0 <= i < |id| :: InId(id[i])
    requires 3 <= k && k + |MARK| <= 3 + |id| && MARK <= (Bullet(id) + (MARK + id + ")"))[k..]
    ensures forall x | x in Listed((Bullet(id) + (MARK + id + ")"))[k..]) :: |x| > |id|
  {
    var s := (Bullet(id) + (MARK + id + ")"))[k..];
    var long := LongRest(id, k);
    hide Bullet, InId, IdLength, Listed;
    IdLengthOf(long, ")");
    assert s[|MARK|..] == long + ")";
    assert s[|MARK| + |long|..] == ")" && s[|MARK|..|MARK| + |long|] == long;
    OneLink(s, |long|);
    NoLinkInEnd();
  }

  /** What is left of the line after such a mark is one long id and the parenthesis that ends the line. */
  lemma LongRest(id: string, k: nat) returns (long: string)
    requires forall i | 0 <= i < |id| :: InId(id[i])
    requires 3 <= k && k + |MARK| <= 3 + |id| && MARK <= (Bullet(id) + (MARK + id + ")"))[k..]
    ensures (Bullet(id) + (MARK + id + ")"))[k..] == MARK + long + ")" && |long| > |id|
    ensures (forall i | 0 <= i < |long| :: InId(long[i])) && !InId(')')
  {
    BulletIs(id);
    assert !InId(')');
    hide Bullet, InId, MARK;
    var line := Bullet(id) + (MARK + id + ")");
    var s := line[k..];
    long := s[|MARK|..|s| - 1];
    forall i | 0 <= i < |long| ensures InId(long[i]) {
      assert long[i] == line[k + |MARK| + i];
      InLine(id, k + |MARK| + i);
    }
    assert s[|s| - 1] == ')' && s == s[..|MARK|] + long + ")";
  }

  lemma OneLink(s: string, n: nat)
    requires n > 0 && MARK <= s && IdLength(s[|MARK|..]) == n
    ensures |MARK| + n <= |s| && Listed(s) == [s[|MARK|..|MARK| + n]] + Listed(s[|MARK| + n..])
  {
  }

  lemma NoLinkInEnd()
    ensures Listed(")") == []
  {
    MarkIs();
    NotPrefix(MARK, ")", 0);
    assert ")"[1..] == "";
  }

  lemma BulletInId(id: string)
    ensures forall i | 3 + |id| <= i < |id| + 13 :: InId(Bullet(id)[i])
    ensures forall i | 0 <= i < |MARK| :: InId(MARK[i])
  {
    BulletIs(id);
    var tail := "](https://";
    assert forall i | 0 <= i < |tail| :: InId(tail[i]);
    assert forall i | 0 <= i < |tail| :: Bullet(id)[3 + |id| + i] == tail[i];
  }

  lemma InLine(id: string, at: nat)
    requires forall i | 0 <= i < |id| :: InId(id[i])
    requires 3 <= at < |Bullet(id)| + |MARK| + |id|
    ensures InId((Bullet(id) + (MARK + id + ")"))[at])
  {
    BulletIs(id);
    BulletInId(id);
    hide Bullet, InId;
    var line := Bullet(id) + (MARK + id + ")");
    if at < 3 + |id| {
      assert line[at] == Bullet(id)[3 + (at - 3)] == id[at - 3];
    } else if at < |Bullet(id)| {
      assert line[at] == Bullet(id)[at];
    } else if at < |Bullet(id)| + |MARK| {
      assert line[at] == MARK[at - |Bullet(id)|];
    } else {
      assert line[at] == id[at - |Bullet(id)| - |MARK|];
    }
  }

  /** A link begun inside an id is begun inside its line, and what is read of it is too long. */
  lemma MarkedId(id: string)
    requires HoldsMark(id) && forall i | 0 <= i < |id| :: InId(id[i])
    ensures forall x | x in Listed(Bullet(id) + (MARK + id + ")")) :: |x| > |id|
  {
    hide Listed, Bullet, InId;
    var line := Bullet(id) + (MARK + id + ")");
    var k :| 0 <= k <= |id| - |MARK| && MARK <= id[k..];
    BulletIs(id);
    forall i | 0 <= i < |MARK| ensures MARK[i] == line[3 + k..][i] {
      assert line[3 + k..][i] == Bullet(id)[3 + (k + i)] == id[k + i] == id[k..][i];
    }
    assert MARK <= line[3 + k..];
    MarkedLine(id, 0, 3 + k);
    assert line[0..] == line;
  }

  /** An id that can be read back: some bytes, none of them a closing parenthesis or white space as a regular
      expression has it, and no link begun inside. */
  ghost predicate CanBeRead(id: string) {
    && id != "" && (forall c | c in id :: c !in [')', ' ', '\t', '\n', '\r'] && c as int != 12)
    && !exists before, after :: id == before + "osv.dev/vulnerability/" + after
  }

  lemma GoodIs(id: string)
    ensures GoodId(id) <==> CanBeRead(id)
  {
    MarkIsInside(id);
    CharsAreIds(id);
    assert MARK == "osv.dev/vulnerability/";
    hide InId, HoldsMark, MARK;
  }

  lemma MarkIsInside(id: string)
    ensures HoldsMark(id) <==> exists before, after :: id == before + MARK + after
  {
    hide MARK;
    if HoldsMark(id) {
      var k :| 0 <= k <= |id| - |MARK| && MARK <= id[k..];
      assert id == id[..k] + MARK + id[k + |MARK|..];
    }
    if before, after :| id == before + MARK + after {
      assert MARK <= id[|before|..];
    }
  }

  lemma CharsAreIds(id: string)
    ensures (forall i | 0 <= i < |id| :: InId(id[i])) <==>
            forall c | c in id :: c !in [')', ' ', '\t', '\n', '\r'] && c as int != 12
  {
    assert forall i | 0 <= i < |id| :: id[i] in id;
  }

  /** Exactly the good ids are read back from their own line. */
  lemma LineListsItsId(id: string)
    ensures id in Listed(Entry(Finding(id, "", ""))) <==> GoodId(id)
    ensures GoodId(id) <==> CanBeRead(id)
  {
    GoodIs(id);
    hide Bullet, IdLength, LinkAt, CanBeRead;
    var f := Finding(id, "", "");
    var line := Bullet(id) + (MARK + id + ")");
    assert After(f) == ")" + "" == ")";
    assert Entry(f) == line && line + "" == line && line[0..] == line;
    if GoodId(id) {
      EntryLists(f, "");
    } else {
      ListedAreIds(line);
      if HoldsMark(id) && forall i | 0 <= i < |id| :: InId(id[i]) {
        MarkedId(id);
      }
    }
  }

  /** One that is not: an id with a link begun inside it. */
  lemma ALinkInsideIsLost()
    ensures var id := MARK + "x"; !GoodId(id) && id !in Listed(Entry(Finding(id, "", "")))
  {
    hide Listed, Entry, InId;
    var id := MARK + "x";
    assert id[0..] == id && MARK <= id;
    assert HoldsMark(id);
    LineListsItsId(id);
  }

  /** A newline ends every link, so what a text lists does not depend on the lines above it. */
  lemma {:induction false} ListedBelow(a: string, b: string, id: string)
    requires id in Listed(b)
    ensures id in Listed(a + "\n" + b)
    decreases |a|
  {
    hide LinkAt;
    var s := a + "\n" + b;
    if a == "" {
      assert s[1..] == b;
      NewlineIsNoLink(b);
    } else if LinkAt(s) {
      LinkStopsAtNewline(a, b);
      var n := |MARK| + IdLength(s[|MARK|..]);
      assert s[n..] == a[n..] + "\n" + b;
      ListedBelow(a[n..], b, id);
    } else {
      assert s[1..] == a[1..] + "\n" + b;
      ListedBelow(a[1..], b, id);
    }
  }

  lemma NewlineIsNoLink(b: string)
    ensures !LinkAt("" + "\n" + b)
  {
    MarkIs();
    var s := "" + "\n" + b;
    assert s[0] == '\n';
    NotPrefix(MARK, s, 0);
  }

  lemma PrefixAgrees(m: string, s: string, i: nat)
    requires m <= s && i < |s|
    ensures i < |m| ==> m[i] == s[i]
  {
  }

  lemma LinkStopsAtNewline(a: string, b: string)
    requires LinkAt(a + "\n" + b)
    ensures |MARK| <= |a| && |MARK| + IdLength((a + "\n" + b)[|MARK|..]) <= |a|
  {
    var s := a + "\n" + b;
    MarkIs();
    assert s[|a|] == '\n';
    PrefixAgrees(MARK, s, |a|);
    var t := s[|MARK|..];
    assert t[|a| - |MARK|] == '\n';
  }

  /** And lines below do not unlist it. */
  lemma {:induction false} EntriesList(fs: seq<Finding>, k: nat, more: string)
    requires k < |fs| && GoodId(fs[k].id)
    ensures fs[k].id in Listed(Entries(fs) + more)
    decreases |fs|
  {
    hide Entry, LinkAt, Listed;
    var rest, last := fs[..|fs| - 1], fs[|fs| - 1];
    var s := Entries(fs) + more;
    if k == |fs| - 1 {
      EntryLists(last, "\n" + more);
      if |fs| == 1 {
        assert Entries(rest) == "";
        assert s == Entry(last) + ("\n" + more);
      } else {
        var before := rest[..|rest| - 1];
        var above := Entries(before) + Entry(rest[|rest| - 1]);
        assert Entries(rest) == above + "\n";
        assert s == above + "\n" + (Entry(last) + ("\n" + more));
        ListedBelow(above, Entry(last) + ("\n" + more), last.id);
      }
    } else {
      assert s == Entries(rest) + (Entry(last) + "\n" + more);
      EntriesList(rest, k, Entry(last) + "\n" + more);
    }
  }

  /** The round trip an issue's memory rests on: whatever the summaries, the release and the
      packages hold, links of their own among them, a body lists every finding it was written
      for. */
  lemma BodyListsItsFindings(release: string, fs: seq<Finding>, f: Finding)
    requires f in fs && GoodId(f.id)
    ensures f.id in Listed(Body(release, fs))
  {
    hide Header, Listed, Entries, GoodId;
    var k :| 0 <= k < |fs| && fs[k] == f;
    EntriesList(fs, k, "");
    assert Entries(fs) + "" == Entries(fs);
    ListedBelow(Header(release, Pkgs(fs)), Entries(fs), f.id);
  }
}
