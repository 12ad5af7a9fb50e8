/** The kernel command line: its printer, what it refuses, and what the kernel reads. */
module Cmdline {
  import opened Text

  datatype Cmdline = Cmdline(
    console: string, quiet: bool, logLevel: int, init: string,
    root: string, rootReadonly: bool, extra: seq<string>)

  /** COMMAND_LINE_SIZE on x86, with the terminating NUL. */
  const MAX_CMDLINE := 2048

  predicate IsSpace(c: char) {
    c == ' ' || c == '\t' || c == '\n' || c as int == 11 || c as int == 12 || c == '\r'
  }

  // ----- the printer

  /** The parameters before Extra that depend on the caller. */
  function Leading(c: Cmdline): seq<string> {
    (if c.console != "" then ["console=" + c.console] else []) +
    (if c.quiet then ["quiet"] else []) +
    ["loglevel=" + Itoa(c.logLevel)] +
    (if c.root != "" then ["root=" + c.root, if c.rootReadonly then "ro" else "rw"] else [])
  }

  /** The parameters every machine has. */
  const ALWAYS: seq<string> := [
    "pci=lastbus=0", "panic=1", "net.ifnames=0", "biosdevname=0",
    "systemd.unified_cgroup_hierarchy=1", "cgroup_no_v1=all", "memhp_default_state=online",
    "no_timer_check", "tsc=reliable", "rcupdate.rcu_expedited=1", "TERM=dumb"]

  function InitToken(c: Cmdline): seq<string> {
    if c.init != "" then ["init=" + c.init] else []
  }

  function Parts(c: Cmdline): seq<string> {
    Leading(c) + ALWAYS + c.extra + InitToken(c)
  }

  function Line(c: Cmdline): string {
    Join(Parts(c), " ")
  }

  /** Cmdline.String: the parameters appended one group at a time, then joined. */
  method String(c: Cmdline) returns (line: string)
    ensures line == Line(c)
  {
    hide Itoa, Join, ALWAYS;
    var parts: seq<string> := [];
    if c.console != "" {
      parts := parts + ["console=" + c.console];
    }
    if c.quiet {
      parts := parts + ["quiet"];
    }
    parts := parts + ["loglevel=" + Itoa(c.logLevel)];
    if c.root != "" {
      var mode := "rw";
      if c.rootReadonly {
        mode := "ro";
      }
      parts := parts + ["root=" + c.root, mode];
    }
    assert parts == Leading(c);
    parts := AppendAlways(parts);
    parts := parts + c.extra;
    if c.init != "" {
      parts := parts + ["init=" + c.init];
    }
    assert parts == Parts(c);
    line := Join(parts, " ");
  }

  /** The middle of String: what every machine has. */
  method AppendAlways(parts: seq<string>) returns (out: seq<string>)
    ensures out == parts + ALWAYS
  {
    out := parts;
    out := out + ["pci=lastbus=0"];
    out := out + ["panic=1"];
    out := out + ["net.ifnames=0", "biosdevname=0"];
    out := out + ["systemd.unified_cgroup_hierarchy=1", "cgroup_no_v1=all"];
    out := out + ["memhp_default_state=online"];
    out := out + ["no_timer_check", "tsc=reliable", "rcupdate.rcu_expedited=1"];
    out := out + ["TERM=dumb"];
  }

  // ----- the reader

  /** How many bytes at the start of s are one word. */
  function WordLength(s: string): (n: nat)
    ensures n <= |s|
    ensures forall i | 0 <= i < n :: !IsSpace(s[i])
    ensures n < |s| ==> IsSpace(s[n])
  {
    if s == "" || IsSpace(s[0]) then 0 else 1 + WordLength(s[1..])
  }

  /** strings.FieldsFunc(s, isSpace), which is also how the kernel cuts a line without
      quotes: the maximal runs of bytes that are not spaces. */
  function Fields(s: string): seq<string>
    decreases |s|
  {
    if s == "" then []
    else if IsSpace(s[0]) then Fields(s[1..])
    else var n := WordLength(s); [s[..n]] + Fields(s[n..])
  }

  function FieldsOfAll(parts: seq<string>): seq<string> {
    if parts == [] then [] else Fields(parts[0]) + FieldsOfAll(parts[1..])
  }

  // ----- what is refused

  datatype Verdict = Accepted | BadField(name: string) | HoldsDashDash(index: nat) | TooLong(bytes: nat)

  predicate OneToken(value: string) {
    forall c | c in value :: !IsSpace(c) && c != '\"'
  }

  predicate NoDashDash(extra: seq<string>) {
    forall e | e in extra :: "--" !in Fields(e)
  }

  /** The first of the three fields, in the order they are looked at, that is not one token. */
  predicate FirstBadField(c: Cmdline, name: string) {
    if !OneToken(c.console) then name == "console"
    else if !OneToken(c.init) then name == "init"
    else name == "root" && !OneToken(c.root)
  }

  /** Cmdline.validate. */
  method Validate(c: Cmdline) returns (v: Verdict)
    ensures v.Accepted? <==> Accepts(c)
    ensures v.BadField? ==> FirstBadField(c, v.name)
    ensures v.HoldsDashDash? ==>
              v.index < |c.extra| && "--" in Fields(c.extra[v.index]) && NoDashDash(c.extra[..v.index])
    ensures v.TooLong? ==> v.bytes == |Line(c)| && v.bytes >= MAX_CMDLINE
  {
    var fields := [("console", c.console), ("init", c.init), ("root", c.root)];
    assert fields[0] == ("console", c.console) && fields[1] == ("init", c.init) && fields[2] == ("root", c.root);
    for i := 0 to |fields|
      invariant forall j | 0 <= j < i :: OneToken(fields[j].1)
    {
      if !OneToken(fields[i].1) {
        return BadField(fields[i].0);
      }
    }
    for i := 0 to |c.extra|
      invariant NoDashDash(c.extra[..i])
    {
      if "--" in Fields(c.extra[i]) {
        return HoldsDashDash(i);
      }
      assert c.extra[..i + 1] == c.extra[..i] + [c.extra[i]];
    }
    assert c.extra[..|c.extra|] == c.extra;
    var line := String(c);
    if |line| >= MAX_CMDLINE {
      return TooLong(|line|);
    }
    return Accepted;
  }

  predicate Accepts(c: Cmdline) {
    && OneToken(c.console) && OneToken(c.init) && OneToken(c.root)
    && NoDashDash(c.extra)
    && |Line(c)| < MAX_CMDLINE
  }

  // ----- proofs

  predicate IsWord(w: string) {
    w != "" && w != "--" && forall i | 0 <= i < |w| :: !IsSpace(w[i])
  }

  predicate AreWords(parts: seq<string>) {
    forall i | 0 <= i < |parts| :: IsWord(parts[i])
  }

  lemma {:induction false} FieldsOfWord(w: string)
    requires IsWord(w)
    ensures Fields(w) == [w]
  {
    assert WordLength(w) == |w|;
    assert w[..|w|] == w && w[|w|..] == "";
  }

  lemma {:induction false} WordLengthConcat(a: string, b: string)
    requires b == "" || IsSpace(b[0])
    ensures WordLength(a + b) == WordLength(a)
  {
    if a == "" {
      assert a + b == b;
    } else {
      assert (a + b)[1..] == a[1..] + b;
      WordLengthConcat(a[1..], b);
    }
  }

  /** A space between two texts keeps their words apart. */
  lemma {:induction false} FieldsConcat(a: string, b: string)
    requires b == "" || IsSpace(b[0])
    ensures Fields(a + b) == Fields(a) + Fields(b)
    decreases |a|
  {
    if a == "" {
      assert a + b == b;
    } else if IsSpace(a[0]) {
      assert (a + b)[1..] == a[1..] + b;
      FieldsConcat(a[1..], b);
    } else {
      var n := WordLength(a);
      WordLengthConcat(a, b);
      assert (a + b)[..n] == a[..n] && (a + b)[n..] == a[n..] + b;
      FieldsConcat(a[n..], b);
      assert Fields(a + b) == [a[..n]] + (Fields(a[n..]) + Fields(b));
    }
  }

  lemma {:induction false} FieldsOfJoin(parts: seq<string>)
    ensures Fields(Join(parts, " ")) == FieldsOfAll(parts)
  {
    if |parts| == 1 {
      assert FieldsOfAll(parts[1..]) == [];
    } else if |parts| > 1 {
      var rest := Join(parts[1..], " ");
      FieldsConcat(parts[0], " " + rest);
      assert (" " + rest)[1..] == rest;
      assert Join(parts, " ") == parts[0] + (" " + rest);
      FieldsOfJoin(parts[1..]);
    }
  }

  lemma {:induction false} FieldsOfAllConcat(a: seq<string>, b: seq<string>)
    ensures FieldsOfAll(a + b) == FieldsOfAll(a) + FieldsOfAll(b)
  {
    if a == [] {
      assert a + b == b;
    } else {
      assert (a + b)[1..] == a[1..] + b;
      FieldsOfAllConcat(a[1..], b);
    }
  }

  lemma {:induction false} FieldsOfWords(parts: seq<string>)
    requires AreWords(parts)
    ensures FieldsOfAll(parts) == parts
    ensures "--" !in parts
  {
    if parts != [] {
      FieldsOfWord(parts[0]);
      FieldsOfWords(parts[1..]);
    }
  }

  lemma KeyedIsWord(key: string, value: string)
    requires IsWord(key) && OneToken(value)
    ensures key != "-" ==> IsWord(key + value)
  {
    var w := key + value;
    forall i | 0 <= i < |w| ensures !IsSpace(w[i]) {
      assert i >= |key| ==> w[i] in value;
    }
    assert key != "-" ==> w[0] != '-' || (|key| >= 2 && (|w| > 2 || w == key));
  }

  lemma LeadingAreWords(c: Cmdline)
    requires OneToken(c.console) && OneToken(c.init) && OneToken(c.root)
    ensures AreWords(Leading(c)) && AreWords(InitToken(c))
  {
    ItoaShape(c.logLevel);
    KeysAreWords();
    hide Itoa, IsWord;
    KeyedIsWord("console=", c.console);
    KeyedIsWord("loglevel=", Itoa(c.logLevel));
    KeyedIsWord("root=", c.root);
    KeyedIsWord("init=", c.init);
  }

  lemma KeysAreWords()
    ensures IsWord("console=") && IsWord("loglevel=") && IsWord("root=") && IsWord("init=")
    ensures IsWord("quiet") && IsWord("ro") && IsWord("rw")
  {
  }

  lemma AlwaysAreWords()
    ensures AreWords(ALWAYS)
  {
    FirstAreWords();
    LastAreWords();
  }

  lemma FirstAreWords()
    ensures IsWord("pci=lastbus=0") && IsWord("panic=1") && IsWord("net.ifnames=0") && IsWord("biosdevname=0")
    ensures IsWord("systemd.unified_cgroup_hierarchy=1") && IsWord("cgroup_no_v1=all")
  {
  }

  lemma LastAreWords()
    ensures IsWord("memhp_default_state=online") && IsWord("no_timer_check") && IsWord("tsc=reliable")
    ensures IsWord("rcupdate.rcu_expedited=1") && IsWord("TERM=dumb")
  {
  }

  lemma FieldsOfLine(c: Cmdline)
    requires OneToken(c.console) && OneToken(c.init) && OneToken(c.root)
    ensures Fields(Line(c)) == Leading(c) + ALWAYS + FieldsOfAll(c.extra) + InitToken(c)
    ensures "--" !in Leading(c) && "--" !in ALWAYS && "--" !in InitToken(c)
  {
    LeadingAreWords(c);
    AlwaysAreWords();
    FieldsOfJoin(Parts(c));
    FieldsOfAllConcat(Leading(c) + ALWAYS + c.extra, InitToken(c));
    FieldsOfAllConcat(Leading(c) + ALWAYS, c.extra);
    FieldsOfAllConcat(Leading(c), ALWAYS);
    FieldsOfWords(Leading(c));
    FieldsOfWords(ALWAYS);
    FieldsOfWords(InitToken(c));
  }

  lemma InFourParts(x: string, a: seq<string>, b: seq<string>, c: seq<string>, d: seq<string>)
    ensures x in a + b + c + d <==> x in a || x in b || x in c || x in d
  {
  }

  /** What the kernel reads of an accepted line: the machine's parameters, each one word, then
      the words of each element of Extra in order, then init as the last word when there is
      one; and no word of the line is the "--" that hands the rest to init. Without quotes in
      Extra these words are the kernel's parameters. */
  lemma KernelReadsWhatWasMeant(c: Cmdline)
    requires Accepts(c)
    ensures Fields(Line(c)) == Leading(c) + ALWAYS + FieldsOfAll(c.extra) + InitToken(c)
    ensures "--" !in Fields(Line(c))
  {
    FieldsOfLine(c);
    DashDashInAll(c.extra);
    InFourParts("--", Leading(c), ALWAYS, FieldsOfAll(c.extra), InitToken(c));
  }

  /** The refusal of "--" is exact: on fields that are one token each, a line hands words to
      init if and only if an element of Extra holds "--". */
  lemma DashDashIsRefusedExactly(c: Cmdline)
    requires OneToken(c.console) && OneToken(c.init) && OneToken(c.root)
    ensures "--" in Fields(Line(c)) <==> !NoDashDash(c.extra)
  {
    FieldsOfLine(c);
    DashDashInAll(c.extra);
    InFourParts("--", Leading(c), ALWAYS, FieldsOfAll(c.extra), InitToken(c));
  }

  lemma {:induction false} DashDashInAll(extra: seq<string>)
    ensures "--" in FieldsOfAll(extra) <==> !NoDashDash(extra)
  {
    if extra != [] {
      DashDashInAll(extra[1..]);
      assert forall e | e in extra :: e == extra[0] || e in extra[1..];
      assert forall e | e in extra[1..] :: e in extra;
    }
  }

  // ----- what is accepted, said otherwise

  /** A white space byte of the kernel's: a blank, or one of the five from tab to carriage return. */
  predicate IsBlank(c: char) { c == ' ' || 9 <= c as int <= 13 }

  /** A text around a word, which white space parts from what is before it and after it. */
  predicate Around(text: string, before: string, w: string, after: string) {
    && text == before + w + after
    && (before == "" || IsBlank(before[|before| - 1])) && (after == "" || IsBlank(after[0]))
  }

  /** A word stands in a text by itself. */
  ghost predicate StandsIn(w: string, text: string) { exists before, after :: Around(text, before, w, after) }

  lemma BlankIs(c: char)
    ensures IsBlank(c) <==> IsSpace(c)
  {
  }

  lemma StandsAsField(w: string, before: string, after: string)
    requires IsWord(w) || w == "--"
    requires before == "" || IsSpace(before[|before| - 1])
    requires after == "" || IsSpace(after[0])
    ensures w in Fields(before + w + after)
  {
    OneField(w);
    FieldsConcat(before + w, after);
    hide IsSpace, IsWord, Fields;
    if before == "" {
      assert before + w == w;
    } else {
      var rest, space := before[..|before| - 1], before[|before| - 1];
      assert before + w == rest + ([space] + w);
      FieldsConcat(rest, [space] + w);
      SpaceFirst(space, w);
    }
  }

  lemma SpaceFirst(space: char, w: string)
    requires IsSpace(space)
    ensures Fields([space] + w) == Fields(w)
  {
    assert ([space] + w)[1..] == w;
  }

  lemma OneField(w: string)
    requires w != "" && forall i | 0 <= i < |w| :: !IsSpace(w[i])
    ensures Fields(w) == [w]
  {
    assert WordLength(w) == |w|;
    assert w[..|w|] == w && w[|w|..] == "";
  }

  lemma AroundMore(front: string, text: string, before: string, w: string, after: string)
    requires Around(text, before, w, after) && (before == "" ==> front == "" || IsBlank(front[|front| - 1]))
    ensures Around(front + text, front + before, w, after)
  {
    hide IsBlank;
    assert front + (before + w + after) == front + before + w + after;
  }

  lemma {:induction false} FieldStands(w: string, text: string) returns (before: string, after: string)
    requires w in Fields(text)
    ensures Around(text, before, w, after)
    decreases |text|
  {
    hide IsSpace, IsBlank, Around;
    if IsSpace(text[0]) {
      before, after := FieldStands(w, text[1..]);
      BlankIs(text[0]);
      AroundMore([text[0]], text[1..], before, w, after);
      assert text == [text[0]] + text[1..];
      before := [text[0]] + before;
    } else {
      var n := WordLength(text);
      assert text == text[..n] + text[n..];
      if w == text[..n] {
        before, after := "", text[n..];
        WordFirst(w, after);
      } else {
        before, after := FieldStands(w, text[n..]);
        FieldIsWord(w, text[n..]);
        NotFirst(text[n..], before, w, after);
        AroundMore(text[..n], text[n..], before, w, after);
        before := text[..n] + before;
      }
    }
  }

  lemma WordFirst(w: string, after: string)
    requires after == "" || IsSpace(after[0])
    ensures Around(w + after, "", w, after)
  {
    if after != "" {
      BlankIs(after[0]);
    }
    hide IsBlank, IsSpace;
    assert "" + w + after == w + after;
  }

  lemma NotFirst(text: string, before: string, w: string, after: string)
    requires Around(text, before, w, after) && text != "" && IsSpace(text[0]) && w != "" && !IsSpace(w[0])
    ensures before != ""
  {
    assert "" + w + after == w + after;
  }

  lemma {:induction false} FieldIsWord(w: string, text: string)
    requires w in Fields(text)
    ensures w != "" && !IsSpace(w[0])
    decreases |text|
  {
    if IsSpace(text[0]) {
      FieldIsWord(w, text[1..]);
    } else {
      var n := WordLength(text);
      if w != text[..n] {
        FieldIsWord(w, text[n..]);
      }
    }
  }

  lemma DashDashStands(text: string)
    ensures "--" in Fields(text) <==> StandsIn("--", text)
  {
    hide Fields, Around;
    if "--" in Fields(text) {
      var before, after := FieldStands("--", text);
    }
    if StandsIn("--", text) {
      var before, after :| Around(text, before, "--", after);
      AroundIsField("--", text, before, after);
    }
  }

  lemma AroundIsField(w: string, text: string, before: string, after: string)
    requires Around(text, before, w, after) && (IsWord(w) || w == "--")
    ensures w in Fields(text)
  {
    if before != "" {
      BlankIs(before[|before| - 1]);
    }
    if after != "" {
      BlankIs(after[0]);
    }
    hide IsBlank, IsSpace, Fields;
    StandsAsField(w, before, after);
  }

  /** What is accepted, byte by byte: fields without a blank, a byte between tab and carriage return or a
      quote, an Extra in which "--" nowhere stands by itself, and a line that fits. */
  lemma WhatIsAccepted(c: Cmdline)
    ensures Accepts(c) <==>
            && (forall x | x in c.console || x in c.init || x in c.root :: !IsBlank(x) && x != '\"')
            && (forall e | e in c.extra :: !StandsIn("--", e))
            && |Line(c)| < 2048
  {
    forall x ensures IsBlank(x) <==> IsSpace(x) {
      BlankIs(x);
    }
    hide IsBlank, IsSpace, StandsIn, Line, Fields;
    forall e ensures "--" in Fields(e) <==> StandsIn("--", e) {
      DashDashStands(e);
    }
  }

  // ----- word by word

  /** How often the machine itself says a word, besides what Extra says. */
  function Said(c: Cmdline, w: string): int {
    multiset(Fields(Line(c)))[w] as int - multiset(FieldsOfAll(c.extra))[w] as int
  }

  function Once(yes: bool): int { if yes then 1 else 0 }

  lemma SaidIs(c: Cmdline, w: string)
    requires Accepts(c)
    ensures Said(c, w) == multiset(Leading(c))[w] + multiset(ALWAYS)[w] + multiset(InitToken(c))[w]
  {
    hide Leading, ALWAYS, FieldsOfAll, InitToken, Line, Fields, Accepts;
    KernelReadsWhatWasMeant(c);
  }

  lemma LeadingSays(c: Cmdline, w: string)
    ensures multiset(Leading(c))[w] ==
            Once(c.console != "" && w == "console=" + c.console) + Once(c.quiet && w == "quiet") +
            Once(w == "loglevel=" + Itoa(c.logLevel)) + Once(c.root != "" && w == "root=" + c.root) +
            Once(c.root != "" && w == if c.rootReadonly then "ro" else "rw")
    ensures multiset(InitToken(c))[w] == Once(c.init != "" && w == "init=" + c.init)
  {
    hide *;
    var mode := if c.rootReadonly then "ro" else "rw";
    LeadingParts(c, mode);
    FiveParts(If(c.console != "", "console=" + c.console), If(c.quiet, "quiet"),
              If(true, "loglevel=" + Itoa(c.logLevel)), If(c.root != "", "root=" + c.root), If(c.root != "", mode), w);
    IfSays(c.console != "", "console=" + c.console, w);
    IfSays(c.quiet, "quiet", w);
    IfSays(true, "loglevel=" + Itoa(c.logLevel), w);
    IfSays(c.root != "", "root=" + c.root, w);
    IfSays(c.root != "", mode, w);
    IfSays(c.init != "", "init=" + c.init, w);
  }

  function If(yes: bool, w: string): seq<string> { if yes then [w] else [] }

  lemma IfSays(yes: bool, x: string, w: string)
    ensures multiset(If(yes, x))[w] == Once(yes && w == x)
  {
  }

  lemma FiveParts(a: seq<string>, b: seq<string>, c: seq<string>, d: seq<string>, e: seq<string>, w: string)
    ensures multiset(a + b + c + d + e)[w] ==
            multiset(a)[w] + multiset(b)[w] + multiset(c)[w] + multiset(d)[w] + multiset(e)[w]
  {
  }

  lemma LeadingParts(c: Cmdline, mode: string)
    requires mode == if c.rootReadonly then "ro" else "rw"
    ensures Leading(c) == If(c.console != "", "console=" + c.console) + If(c.quiet, "quiet") +
              If(true, "loglevel=" + Itoa(c.logLevel)) + If(c.root != "", "root=" + c.root) + If(c.root != "", mode)
    ensures InitToken(c) == If(c.init != "", "init=" + c.init)
  {
    hide Itoa;
  }

  /** No word the caller decides on is one every machine has. */
  lemma AlwaysSaysNone(c: Cmdline)
    ensures ("console=" + c.console) !in ALWAYS && ("loglevel=" + Itoa(c.logLevel)) !in ALWAYS
    ensures ("root=" + c.root) !in ALWAYS && ("init=" + c.init) !in ALWAYS
    ensures "quiet" !in ALWAYS && "ro" !in ALWAYS && "rw" !in ALWAYS
  {
    hide Itoa;
    AlwaysBegins();
    assert ("console=" + c.console)[1] == 'o' && ("loglevel=" + Itoa(c.logLevel))[0] == 'l';
    assert ("root=" + c.root)[0] == 'r' && ("root=" + c.root)[1] == 'o' && ("init=" + c.init)[0] == 'i';
  }

  lemma AlwaysBegins()
    ensures |ALWAYS| == 11 && forall i | 0 <= i < 11 ::
              |ALWAYS[i]| >= 7 && ALWAYS[i][0] !in ['l', 'i', 'q'] &&
              (ALWAYS[i][0] in ['c', 'r'] ==> ALWAYS[i][1] != 'o')
  {
  }

  /** What the machine says of the caller's own, each exactly as often as it was asked for: the console,
      quiet, the log level, the root with how it is mounted, and init. */
  lemma WordsAreSaid(c: Cmdline)
    requires Accepts(c)
    ensures Said(c, "console=" + c.console) == Once(c.console != "") && Said(c, "quiet") == Once(c.quiet)
    ensures Said(c, "loglevel=" + Itoa(c.logLevel)) == 1
    ensures Said(c, "root=" + c.root) == Once(c.root != "")
    ensures Said(c, "ro") == Once(c.root != "" && c.rootReadonly)
    ensures Said(c, "rw") == Once(c.root != "" && !c.rootReadonly)
    ensures Said(c, "init=" + c.init) == Once(c.init != "")
  {
    hide Said, Leading, InitToken, ALWAYS, Itoa, Accepts;
    AlwaysSaysNone(c);
    WordsApart(c);
    var words := ["console=" + c.console, "quiet", "loglevel=" + Itoa(c.logLevel), "root=" + c.root, "ro", "rw",
                  "init=" + c.init];
    forall w | w in words
      ensures Said(c, w) == multiset(Leading(c))[w] + multiset(InitToken(c))[w]
    {
      SaidIs(c, w);
    }
    LeadingSays(c, words[0]);
    LeadingSays(c, words[1]);
    LeadingSays(c, words[2]);
    LeadingSays(c, words[3]);
    LeadingSays(c, words[4]);
    LeadingSays(c, words[5]);
    LeadingSays(c, words[6]);
  }

  lemma WordsApart(c: Cmdline)
    ensures Distinct(["console=" + c.console, "quiet", "loglevel=" + Itoa(c.logLevel), "root=" + c.root, "ro", "rw",
                      "init=" + c.init])
  {
    hide Itoa;
    assert ("console=" + c.console)[0] == 'c' && ("loglevel=" + Itoa(c.logLevel))[0] == 'l';
    assert ("root=" + c.root)[0] == 'r' && |"root=" + c.root| >= 5 && ("init=" + c.init)[0] == 'i';
  }

  // ----- a line that is accepted

  lemma {:induction false} JoinBound(parts: seq<string>, k: nat)
    requires forall i | 0 <= i < |parts| :: |parts[i]| <= k
    ensures |Join(parts, " ")| <= |parts| * (k + 1)
  {
    if |parts| > 1 {
      JoinBound(parts[1..], k);
      assert |parts| * (k + 1) == (k + 1) + |parts[1..]| * (k + 1);
    } else if |parts| == 1 {
      assert |parts| * (k + 1) == k + 1;
    }
  }

  lemma AlwaysIsShort()
    ensures |ALWAYS| == 11 && forall i | 0 <= i < |ALWAYS| :: |ALWAYS[i]| <= 40
  {
  }

  lemma BareLineIsAccepted()
    ensures Accepts(Cmdline("", false, 0, "", "", false, []))
  {
    hide ALWAYS, Join;
    var c := Cmdline("", false, 0, "", "", false, []);
    assert Itoa(0) == [DIGITS[0]];
    AlwaysIsShort();
    assert Parts(c) == Leading(c) + ALWAYS;
    JoinBound(Parts(c), 40);
  }
}
