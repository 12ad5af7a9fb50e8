/** QEMU's option strings: a list cut at single commas, in which a doubled comma is one
    literal comma, and the escaping that keeps a caller's value inside its own option. */
module QemuOptions {
  import opened Text

  /** qemuOpt: every comma doubled. */
  function Escape(v: string): string {
    if v == "" then "" else (if v[0] == ',' then ",," else [v[0]]) + Escape(v[1..])
  }

  /** The pieces of an option string, read from the left as QEMU reads it: two commas are one
      literal comma, one alone ends the piece. cur is what has been read of the piece. */
  function Pieces(s: string, cur: string): (r: seq<string>)
    ensures |r| > 0
    decreases |s|
  {
    if s == "" then [cur]
    else if s[0] != ',' then Pieces(s[1..], cur + [s[0]])
    else if |s| > 1 && s[1] == ',' then Pieces(s[2..], cur + ",")
    else [cur] + Pieces(s[1..], "")
  }

  /** One property of an option string as the machine writes it: a bare word, a key with a
      value written as it is, or a key with a caller's value that goes through Escape. */
  datatype Prop =
    | Word(text: string)
    | Plain(key: string, value: string)
    | Escaped(key: string, value: string)

  function Written(p: Prop): string {
    match p
    case Word(t) => t
    case Plain(k, v) => k + "=" + v
    case Escaped(k, v) => k + "=" + Escape(v)
  }

  function WrittenAll(ps: seq<Prop>): (r: seq<string>)
    ensures |r| == |ps| && forall i | 0 <= i < |ps| :: r[i] == Written(ps[i])
  {
    if ps == [] then [] else [Written(ps[0])] + WrittenAll(ps[1..])
  }

  /** The option string of a list of properties, as a Sprintf with a comma-separated format
      makes it. */
  function Render(ps: seq<Prop>): string {
    Join(WrittenAll(ps), ",")
  }

  /** An option as QEMU holds it after reading: a word, or a key set to a value. */
  datatype Opt = Flag(name: string) | Set(key: string, value: string)

  function Classify(piece: string): Opt {
    var i := IndexOf(piece, '=');
    if i == |piece| then Flag(piece) else Set(piece[..i], piece[i + 1..])
  }

  function ClassifyAll(pieces: seq<string>): (r: seq<Opt>)
    ensures |r| == |pieces| && forall i | 0 <= i < |pieces| :: r[i] == Classify(pieces[i])
  {
    if pieces == [] then [] else [Classify(pieces[0])] + ClassifyAll(pieces[1..])
  }

  /** What QEMU makes of an option string. */
  function Parse(s: string): (r: seq<Opt>)
    ensures |r| > 0
  {
    ClassifyAll(Pieces(s, ""))
  }

  /** What the writer of a property means by it. */
  function Meant(p: Prop): Opt {
    match p
    case Word(t) => Flag(t)
    case Plain(k, v) => Set(k, v)
    case Escaped(k, v) => Set(k, v)
  }

  function MeantAll(ps: seq<Prop>): (r: seq<Opt>)
    ensures |r| == |ps| && forall i | 0 <= i < |ps| :: r[i] == Meant(ps[i])
  {
    if ps == [] then [] else [Meant(ps[0])] + MeantAll(ps[1..])
  }

  predicate NoComma(s: string) { forall i | 0 <= i < |s| :: s[i] != ',' }

  predicate Clean(s: string) { forall i | 0 <= i < |s| :: s[i] != ',' && s[i] != '=' }

  /** What the machine's own part of a property keeps to. Nothing is asked of an escaped
      value. */
  predicate WellWritten(p: Prop) {
    match p
    case Word(t) => t != "" && Clean(t)
    case Plain(k, v) => k != "" && Clean(k) && NoComma(v)
    case Escaped(k, v) => k != "" && Clean(k)
  }

  predicate AllWellWritten(ps: seq<Prop>) {
    forall i | 0 <= i < |ps| :: WellWritten(ps[i])
  }

  // ----- proofs

  /** An escaped text is read as the text, up to a separator or the end, whatever runs of
      commas it holds. */
  lemma {:induction false} PiecesOfEscaped(v: string, rest: string, cur: string)
    requires rest == "" || (rest[0] == ',' && (|rest| == 1 || rest[1] != ','))
    ensures Pieces(Escape(v) + rest, cur) == Pieces(rest, cur + v)
    decreases |v|
  {
    if v == "" {
      assert Escape(v) + rest == rest && cur + v == cur;
    } else {
      PiecesOfEscaped(v[1..], rest, cur + [v[0]]);
      assert cur + [v[0]] + v[1..] == cur + v;
      OneMoreRead(v, rest, cur);
    }
  }

  lemma OneMoreRead(v: string, rest: string, cur: string)
    requires v != ""
    ensures Pieces(Escape(v) + rest, cur) == Pieces(Escape(v[1..]) + rest, cur + [v[0]])
  {
    var s, more := Escape(v) + rest, Escape(v[1..]) + rest;
    if v[0] == ',' {
      assert s == ",," + more;
      assert s[0] == ',' && s[1] == ',' && s[2..] == more;
    } else {
      assert s == [v[0]] + more;
      assert s[0] == v[0] && s[1..] == more;
    }
  }

  lemma {:induction false} EscapePlain(v: string)
    requires ',' !in v
    ensures Escape(v) == v
  {
    if v != "" {
      EscapePlain(v[1..]);
    }
  }

  lemma {:induction false} EscapeConcat(a: string, b: string)
    ensures Escape(a + b) == Escape(a) + Escape(b)
  {
    if a == "" {
      assert a + b == b;
    } else {
      assert (a + b)[1..] == a[1..] + b;
      EscapeConcat(a[1..], b);
    }
  }

  function PieceText(p: Prop): string {
    match p
    case Word(t) => t
    case Plain(k, v) => k + "=" + v
    case Escaped(k, v) => k + "=" + v
  }

  lemma WrittenIsEscaped(p: Prop)
    requires WellWritten(p)
    ensures Written(p) == Escape(PieceText(p))
    ensures PieceText(p) != "" && PieceText(p)[0] != ','
    ensures Classify(PieceText(p)) == Meant(p)
  {
    match p {
      case Word(t) =>
        EscapePlain(t);
        IndexOfAbsent(t, '=');
      case Plain(k, v) =>
        EscapePlain(k + "=" + v);
        KeyIsCut(k, v);
      case Escaped(k, v) =>
        EscapeConcat(k + "=", v);
        EscapePlain(k + "=");
        KeyIsCut(k, v);
    }
  }

  lemma KeyIsCut(k: string, v: string)
    requires '=' !in k
    ensures Classify(k + "=" + v) == Set(k, v)
  {
    IndexOfFirst(k, '=', v);
    var s := k + "=" + v;
    assert s[..|k|] == k && s[|k| + 1..] == v;
  }

  function PieceTexts(ps: seq<Prop>): (r: seq<string>)
    ensures |r| == |ps| && forall i | 0 <= i < |ps| :: r[i] == PieceText(ps[i])
  {
    if ps == [] then [] else [PieceText(ps[0])] + PieceTexts(ps[1..])
  }

  function EscapeAll(texts: seq<string>): (r: seq<string>)
    ensures |r| == |texts| && forall i | 0 <= i < |texts| :: r[i] == Escape(texts[i])
  {
    if texts == [] then [] else [Escape(texts[0])] + EscapeAll(texts[1..])
  }

  /** Escaped texts joined by commas are read as the texts, when none after the first is empty
      or starts with a comma. */
  lemma {:induction false} PiecesOfJoin(texts: seq<string>)
    requires |texts| > 0
    requires forall i | 1 <= i < |texts| :: texts[i] != "" && texts[i][0] != ','
    ensures Pieces(Join(EscapeAll(texts), ","), "") == texts
  {
    var s := Join(EscapeAll(texts), ",");
    assert "" + texts[0] == texts[0];
    if |texts| == 1 {
      PiecesOfEscaped(texts[0], "", "");
      assert s == Escape(texts[0]) + "";
    } else {
      var more := Join(EscapeAll(texts[1..]), ",");
      assert more[0] == texts[1][0];
      assert s == Escape(texts[0]) + ("," + more);
      PiecesOfEscaped(texts[0], "," + more, "");
      assert ("," + more)[1..] == more;
      PiecesOfJoin(texts[1..]);
    }
  }

  lemma PiecesOfRender(ps: seq<Prop>)
    requires |ps| > 0 && AllWellWritten(ps)
    ensures Pieces(Render(ps), "") == PieceTexts(ps)
  {
    forall i | 0 <= i < |ps|
      ensures WrittenAll(ps)[i] == EscapeAll(PieceTexts(ps))[i]
      ensures PieceTexts(ps)[i] != "" && PieceTexts(ps)[i][0] != ','
    {
      WrittenIsEscaped(ps[i]);
    }
    assert WrittenAll(ps) == EscapeAll(PieceTexts(ps));
    PiecesOfJoin(PieceTexts(ps));
  }

  /** The round trip: QEMU reads back exactly the options that were meant, each caller's value
      intact and no option more, for every value and every run of commas in it. */
  lemma ParseRender(ps: seq<Prop>)
    requires |ps| > 0 && AllWellWritten(ps)
    ensures Parse(Render(ps)) == MeantAll(ps)
  {
    PiecesOfRender(ps);
    forall i | 0 <= i < |ps|
      ensures Parse(Render(ps))[i] == Meant(ps[i])
    {
      WrittenIsEscaped(ps[i]);
    }
  }

  /** Escaping is undone by reading, and is needed exactly for a value with a comma in it:
      written as it is, only a value without one is read back as it was. */
  lemma EscapingIsNeeded(v: string)
    ensures Pieces(Escape(v), "") == [v]
    ensures Pieces(v, "") == [v] <==> ',' !in v
  {
    PiecesOfEscaped(v, "", "");
    assert Escape(v) + "" == Escape(v) && "" + v == v;
    if ',' !in v {
      EscapePlain(v);
    } else if |Pieces(v, "")| == 1 {
      PiecesLoseCommas(v, "");
    }
  }

  lemma {:induction false} PiecesLoseCommas(s: string, cur: string)
    requires |Pieces(s, cur)| == 1
    ensures |Pieces(s, cur)[0]| <= |cur| + |s|
    ensures ',' in s ==> |Pieces(s, cur)[0]| < |cur| + |s|
    decreases |s|
  {
    if s != "" {
      if s[0] != ',' {
        PiecesLoseCommas(s[1..], cur + [s[0]]);
      } else if |s| > 1 && s[1] == ',' {
        PiecesLoseCommas(s[2..], cur + ",");
      } else {
        assert |Pieces(s[1..], "")| > 0;
      }
    }
  }
}
