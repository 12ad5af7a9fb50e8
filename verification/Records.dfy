/** The byte stream a fingerprint hashes: records written key=len:value and a newline, one
    after another, with nothing escaped. The length is what makes it readable. */
module Records {
  import opened Text

  datatype Record = Record(key: string, value: string)

  /** A record as it is written: its key, the length of its value, and the value. */
  function Encode(r: Record): string {
    r.key + "=" + Itoa(|r.value|) + ":" + r.value + "\n"
  }

  function EncodeAll(rs: seq<Record>): string {
    if rs == [] then "" else Encode(rs[0]) + EncodeAll(rs[1..])
  }

  /** What a reader of the stream does for one record: a key up to '=', a canonical decimal up
      to ':', that many bytes whatever they are, and a newline. None is a stream nothing
      wrote. */
  function DecodeOne(s: string): Option<(Record, string)> {
    match Cut(s, '=')
    case None => None
    case Some((key, numbered)) =>
      match Cut(numbered, ':')
      case None => None
      case Some((number, tail)) => TakeValue(key, number, tail)
  }

  function TakeValue(key: string, number: string, tail: string): Option<(Record, string)> {
    var n := NumeralValue(number, 10);
    if number != Itoa(n) || |tail| <= n || tail[n] != '\n' then None
    else Some((Record(key, tail[..n]), tail[n + 1..]))
  }

  function Decode(s: string): Option<seq<Record>>
    decreases |s|
  {
    if s == "" then Some([]) else
      match DecodeOne(s)
      case None => None
      case Some((r, more)) =>
        if |more| >= |s| then None else
          match Decode(more)
          case None => None
          case Some(rs) => Some([r] + rs)
  }

  ghost predicate Readable(rs: seq<Record>) {
    forall r | r in rs :: '=' !in r.key
  }

  /** One record is read back whatever its value holds, and the reader is left exactly at
      what follows it. */
  lemma DecodeRecord(r: Record, more: string)
    requires '=' !in r.key
    ensures DecodeOne(Encode(r) + more) == Some((r, more))
  {
    hide Cut, TakeValue, Itoa, Encode;
    var number, tail := Itoa(|r.value|), r.value + "\n" + more;
    EncodeIs(r, more);
    CutOf(r.key, '=', number + [':'] + tail);
    NoColon(|r.value|);
    CutOf(number, ':', tail);
    ValueIsTaken(r, more);
  }

  lemma EncodeIs(r: Record, more: string)
    ensures Encode(r) + more == r.key + ['='] + (Itoa(|r.value|) + [':'] + (r.value + "\n" + more))
  {
    hide Itoa;
  }

  lemma NoColon(n: nat)
    ensures ':' !in Itoa(n)
  {
    hide Itoa;
    ItoaShape(n);
  }

  lemma ValueIsTaken(r: Record, more: string)
    ensures TakeValue(r.key, Itoa(|r.value|), r.value + "\n" + more) == Some((r, more))
  {
    hide NumeralValue;
    NumeralIsRead(|r.value|, 10);
    var tail := r.value + "\n" + more;
    assert tail[..|r.value|] == r.value && tail[|r.value| + 1..] == more;
  }

  lemma RecordDecode(s: string)
    requires DecodeOne(s).Some?
    ensures var (r, more) := DecodeOne(s).value; '=' !in r.key && s == Encode(r) + more
  {
    CutBack(s, '=');
    var (key, numbered) := Cut(s, '=').value;
    CutBack(numbered, ':');
    var (number, tail) := Cut(numbered, ':').value;
    ValueTaken(key, number, tail);
    var (r, more) := TakeValue(key, number, tail).value;
    Reassociate(key, number, r.value, more);
  }

  lemma ValueTaken(key: string, number: string, tail: string)
    requires TakeValue(key, number, tail).Some?
    ensures var (r, more) := TakeValue(key, number, tail).value;
            r.key == key && number == Itoa(|r.value|) && tail == r.value + "\n" + more
  {
  }

  lemma Reassociate(key: string, number: string, value: string, more: string)
    ensures key + "=" + (number + ":" + (value + "\n" + more))
         == key + "=" + number + ":" + value + "\n" + more
  {
    var tail := value + "\n" + more;
    assert number + ":" + tail == number + ":" + value + "\n" + more;
    assert key + "=" + (number + ":" + tail) == (key + "=" + number + ":") + tail;
    assert (key + "=" + number + ":") + tail == key + "=" + number + ":" + value + "\n" + more;
  }

  lemma EncodeIsLonger(r: Record)
    ensures |Encode(r)| > 0
  {
  }

  lemma {:induction false} DecodeEncode(rs: seq<Record>)
    requires Readable(rs)
    ensures Decode(EncodeAll(rs)) == Some(rs)
  {
    if rs != [] {
      hide *;
      FirstOf(rs);
      var more := EncodeAll(rs[1..]);
      DecodeRecord(rs[0], more);
      DecodeEncode(rs[1..]);
      DecodeNext(rs[0], more, rs[1..]);
      assert [rs[0]] + rs[1..] == rs;
    }
  }

  lemma FirstOf(rs: seq<Record>)
    requires rs != [] && Readable(rs)
    ensures '=' !in rs[0].key && Readable(rs[1..])
    ensures EncodeAll(rs) == Encode(rs[0]) + EncodeAll(rs[1..])
  {
    hide Encode;
  }

  lemma DecodeNext(r: Record, more: string, rs: seq<Record>)
    requires DecodeOne(Encode(r) + more) == Some((r, more)) && Decode(more) == Some(rs)
    ensures Decode(Encode(r) + more) == Some([r] + rs)
  {
    EncodeIsLonger(r);
    hide DecodeOne, Encode;
  }

  /** The reader accepts nothing but encodings, and gives back the one that was written. */
  lemma {:induction false} EncodeDecode(s: string)
    requires Decode(s).Some?
    ensures Readable(Decode(s).value)
    ensures EncodeAll(Decode(s).value) == s
    decreases |s|
  {
    if s != "" {
      RecordDecode(s);
      var (r, more) := DecodeOne(s).value;
      EncodeDecode(more);
      assert Decode(s).value == [r] + Decode(more).value;
    }
  }

  /** Two lists of records have one stream only when they are one list. */
  lemma EncodingIsInjective(a: seq<Record>, b: seq<Record>)
    requires Readable(a) && Readable(b)
    ensures EncodeAll(a) == EncodeAll(b) <==> a == b
  {
    DecodeEncode(a);
    DecodeEncode(b);
  }

  lemma {:induction false} EncodeAppend(rs: seq<Record>, r: Record)
    ensures EncodeAll(rs + [r]) == EncodeAll(rs) + Encode(r)
  {
    hide Encode;
    if rs != [] {
      assert (rs + [r])[1..] == rs[1..] + [r];
      EncodeAppend(rs[1..], r);
    } else {
      assert rs + [r] == [r];
      assert [r][1..] == [];
    }
  }
}
