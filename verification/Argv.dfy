/** A QEMU command line: a flat list of arguments, and what QEMU reads of it. A -blockdev
    argument is the node its JSON encodes; every other argument is a string. */
module Argv {
  import opened Text
  import opened QemuOptions

  /** What a format node says of the image under it: no option at all, JSON null, or the name
      of a node. */
  datatype Backing = Absent | Null | Named(node: string)

  /** The two -blockdev nodes of one image. cache is the value of cache.direct, when a cache is
      given at all; locking is left out when empty. */
  datatype Node =
    | FileNode(nodeName: string, filename: string, aio: string, discard: string,
               readOnly: bool, dropCache: bool, locking: string, cache: Option<bool>)
    | FormatNode(driver: string, nodeName: string, file: string, readOnly: bool,
                 discard: string, backing: Backing)

  datatype Arg = Str(s: string) | Json(node: Node)

  /** One flag with what follows it, as the machine means it. */
  datatype Item =
    | Bare(flag: string)
    | Verbatim(flag: string, text: string)
    | Listed(flag: string, props: seq<Prop>)
    | Socket(path: string)
    | Block(node: Node)

  function Rendered(i: Item): seq<Arg> {
    match i
    case Bare(flag) => [Str(flag)]
    case Verbatim(flag, text) => [Str(flag), Str(text)]
    case Listed(flag, props) => [Str(flag), Str(Render(props))]
    case Socket(path) => [Str("-qmp"), Str(Join(["unix:" + Escape(path), "server=on", "wait=off"], ","))]
    case Block(node) => [Str("-blockdev"), Json(node)]
  }

  function RenderedAll(items: seq<Item>): seq<Arg> {
    if items == [] then [] else Rendered(items[0]) + RenderedAll(items[1..])
  }

  // ----- the reader

  datatype Reading =
    | ReadBare(flag: string)
    | ReadText(flag: string, text: string)
    | ReadOpts(flag: string, opts: seq<Opt>)
    | ReadBlock(node: Node)

  /** The flags that take no value. */
  predicate TakesNoValue(flag: string) {
    flag == "-nodefaults" || flag == "-nographic" || flag == "-no-reboot"
  }

  /** The flags whose value is a list of options. */
  predicate TakesOptions(flag: string) {
    flag == "-device" || flag == "-drive" || flag == "-netdev" || flag == "-chardev" ||
    flag == "-object" || flag == "-add-fd" || flag == "-accel"
  }

  /** The first '=' of a text comes before any comma: QEMU takes what is before it for the name of an
      option, even where it would supply one. */
  predicate NamesItsOption(text: string) { IndexOf(text, '=') < IndexOf(text, ',') }

  /** The options of a socket's address, of which the first may leave out its name: path. */
  function ParseSocket(text: string): seq<Opt> {
    var pieces := Pieces(text, "");
    [if NamesItsOption(text) then Classify(pieces[0]) else Set("path", pieces[0])] + ClassifyAll(pieces[1..])
  }

  const UNIX := "unix:"

  function ReadOne(flag: string, value: Arg): Option<Reading> {
    match value
    case Json(node) => if flag == "-blockdev" then Some(ReadBlock(node)) else None
    case Str(text) =>
      if flag == "-blockdev" then None
      else if flag == "-qmp" && UNIX <= text then Some(ReadOpts(flag, ParseSocket(text[|UNIX|..])))
      else if TakesOptions(flag) then Some(ReadOpts(flag, Parse(text)))
      else Some(ReadText(flag, text))
  }

  /** QEMU's walk over its arguments: every flag takes the argument after it, whatever that is,
      unless it is one that takes none. */
  function ReadArgv(args: seq<Arg>): Option<seq<Reading>> {
    if args == [] then Some([])
    else if !args[0].Str? then None
    else if TakesNoValue(args[0].s) then
      match ReadArgv(args[1..]) case None => None case Some(rs) => Some([ReadBare(args[0].s)] + rs)
    else if |args| == 1 then None
    else
      match ReadOne(args[0].s, args[1])
      case None => None
      case Some(r) => match ReadArgv(args[2..]) case None => None case Some(rs) => Some([r] + rs)
  }

  function MeantBy(i: Item): Reading {
    match i
    case Bare(flag) => ReadBare(flag)
    case Verbatim(flag, text) => ReadText(flag, text)
    case Listed(flag, props) => ReadOpts(flag, MeantAll(props))
    case Socket(path) => ReadOpts("-qmp", [Set("path", path), Set("server", "on"), Set("wait", "off")])
    case Block(node) => ReadBlock(node)
  }

  /** What QEMU reads of an item: what was meant by it, but for a socket whose path names an option. */
  function ReadAs(i: Item): Reading {
    if i.Socket? && NamesItsOption(i.path) then
      ReadOpts("-qmp", [Classify(i.path), Set("server", "on"), Set("wait", "off")])
    else MeantBy(i)
  }

  function ReadAsAll(items: seq<Item>): (r: seq<Reading>)
    ensures |r| == |items| && forall i | 0 <= i < |items| :: r[i] == ReadAs(items[i])
  {
    if items == [] then [] else [ReadAs(items[0])] + ReadAsAll(items[1..])
  }

  /** No socket's path names an option. */
  predicate Unnamed(items: seq<Item>) {
    forall i | 0 <= i < |items| && items[i].Socket? :: !NamesItsOption(items[i].path)
  }

  function MeantByAll(items: seq<Item>): (r: seq<Reading>)
    ensures |r| == |items| && forall i | 0 <= i < |items| :: r[i] == MeantBy(items[i])
  {
    if items == [] then [] else [MeantBy(items[0])] + MeantByAll(items[1..])
  }

  predicate Readable(i: Item) {
    match i
    case Bare(flag) => TakesNoValue(flag)
    case Verbatim(flag, _) => !TakesNoValue(flag) && !TakesOptions(flag) && flag != "-blockdev" && flag != "-qmp"
    case Listed(flag, props) => TakesOptions(flag) && |props| > 0 && AllWellWritten(props)
    case Socket(_) => true
    case Block(_) => true
  }

  predicate AllReadable(items: seq<Item>) {
    forall i | 0 <= i < |items| :: Readable(items[i])
  }

  // ----- proofs

  lemma ReadRendered(i: Item)
    requires Readable(i) && !i.Bare?
    ensures var args := Rendered(i);
            args[0].Str? && !TakesNoValue(args[0].s) && ReadOne(args[0].s, args[1]) == Some(ReadAs(i))
  {
    hide Join, Escape, Pieces;
    match i {
      case Bare(_) =>
      case Verbatim(_, _) =>
      case Listed(_, props) => ParseRender(props);
      case Socket(path) => SocketIsRead(path);
      case Block(_) =>
    }
  }

  /** The first '=' and the first comma of an escaped text come in the order they have in the text,
      when a comma follows it. */
  lemma {:induction false} EscapingKeepsTheName(path: string, rest: string)
    requires rest != "" && rest[0] == ','
    ensures NamesItsOption(Escape(path) + rest) <==> NamesItsOption(path)
  {
    var s := Escape(path) + rest;
    if path == "" {
      assert s == rest;
    } else if path[0] == ',' || path[0] == '=' {
      assert s[0] == path[0];
    } else {
      assert s[1..] == Escape(path[1..]) + rest && s[0] == path[0];
      EscapingKeepsTheName(path[1..], rest);
    }
  }

  lemma AddressIsParsed(path: string, second: string, third: string)
    requires second != "" && ',' !in second && third != "" && ',' !in third
    ensures ParseSocket(Join([Escape(path), second, third], ",")) ==
            [if NamesItsOption(path) then Classify(path) else Set("path", path), Classify(second), Classify(third)]
  {
    hide Classify, NamesItsOption, Escape, Pieces;
    var rest := "," + Join([second, third], ",");
    assert [Escape(path), second, third][1..] == [second, third];
    assert Join([Escape(path), second, third], ",") == Escape(path) + rest;
    EscapingKeepsTheName(path, rest);
    SocketPieces(path, second, third);
  }

  lemma PrefixJoins(prefix: string, first: string, second: string, third: string)
    ensures Join([prefix + first, second, third], ",") == prefix + Join([first, second, third], ",")
  {
    var more := Join([second, third], ",");
    assert [prefix + first, second, third][1..] == [second, third] && [first, second, third][1..] == [second, third];
    assert (prefix + first) + "," + more == prefix + (first + "," + more);
  }

  lemma SocketIsRead(path: string)
    ensures var text := Join([UNIX + Escape(path), "server=on", "wait=off"], ",");
            UNIX <= text && ReadOpts("-qmp", ParseSocket(text[|UNIX|..])) == ReadAs(Socket(path))
  {
    hide Classify, NamesItsOption, Escape, ParseSocket, Join, UNIX;
    AddressIsParsed(path, "server=on", "wait=off");
    PrefixJoins(UNIX, Escape(path), "server=on", "wait=off");
    KeyIsCut("server", "on");
    KeyIsCut("wait", "off");
    assert "server" + "=" + "on" == "server=on" && "wait" + "=" + "off" == "wait=off";
  }

  lemma SocketPieces(path: string, second: string, third: string)
    requires second != "" && ',' !in second && third != "" && ',' !in third
    ensures Pieces(Join([Escape(path), second, third], ","), "") == [path, second, third]
  {
    EscapePlain(second);
    EscapePlain(third);
    var texts := [path, second, third];
    assert EscapeAll(texts) == [Escape(path), second, third];
    PiecesOfJoin(texts);
  }

  /** QEMU reads the command line back as its items one by one: no caller's value is taken for a
      flag, for another option or for part of one. */
  lemma {:induction false} ReadRenderedAll(items: seq<Item>)
    requires AllReadable(items)
    ensures ReadArgv(RenderedAll(items)) == Some(ReadAsAll(items))
  {
    hide ReadAs, ReadOne;
    if items != [] {
      var args, first, more := RenderedAll(items), Rendered(items[0]), RenderedAll(items[1..]);
      ReadRenderedAll(items[1..]);
      assert args[|first|..] == more;
      if items[0].Bare? {
        BareIsRead(items[0]);
      } else {
        ReadRendered(items[0]);
        assert args[1] == first[1];
      }
    }
  }

  lemma BareIsRead(i: Item)
    requires i.Bare?
    ensures ReadAs(i) == ReadBare(i.flag)
  {
  }

  /** And what it reads of them is what was meant if and only if no socket's path has an '=' before
      its first comma. */
  lemma {:induction false} ReadAsMeant(items: seq<Item>)
    ensures ReadAsAll(items) == MeantByAll(items) <==> Unnamed(items)
  {
    forall i | 0 <= i < |items| ensures ReadAs(items[i]) == MeantBy(items[i]) <==> Unnamed([items[i]]) {
      NamedIsNotMeant(items[i]);
    }
    hide ReadAs, MeantBy, NamesItsOption;
    if Unnamed(items) {
      assert forall i | 0 <= i < |items| :: Unnamed([items[i]]);
    } else {
      var i :| 0 <= i < |items| && items[i].Socket? && NamesItsOption(items[i].path);
      assert [items[i]][0] == items[i];
      assert ReadAsAll(items)[i] != MeantByAll(items)[i];
    }
  }

  lemma NamedIsNotMeant(i: Item)
    ensures ReadAs(i) == MeantBy(i) <==> Unnamed([i])
  {
    assert [i][0] == i;
    if i.Socket? && NamesItsOption(i.path) {
      assert |Classify(i.path).value| < |i.path|;
    }
  }

  lemma {:induction false} RenderedConcat(a: seq<Item>, b: seq<Item>)
    ensures RenderedAll(a + b) == RenderedAll(a) + RenderedAll(b)
  {
    if a == [] {
      assert a + b == b;
    } else {
      assert (a + b)[1..] == a[1..] + b;
      RenderedConcat(a[1..], b);
    }
  }

  lemma RenderedOne(i: Item)
    ensures RenderedAll([i]) == Rendered(i)
  {
    assert [i][1..] == [];
  }
}
