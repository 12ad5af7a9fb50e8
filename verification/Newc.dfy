/** The "new ASCII" cpio archive the probes boot from, and a reader of it as the kernel's
    initramfs buffer format describes one. */
module Newc {
  import opened Text

  datatype Entry = Entry(name: string, mode: nat, rdevMajor: nat, rdevMinor: nat, data: string)

  const TRAILER := "TRAILER!!!"
  const NUL: char := '\0'
  const WORD := 0x1_0000_0000

  // ----- numbers

  const UPPER: string := "0123456789ABCDEF"

  function HexValue(c: char): nat {
    if '0' <= c <= '9' then c as int - '0' as int else if 'A' <= c <= 'F' then c as int - 'A' as int + 10 else 0
  }

  /** The last k hexadecimal digits of n. */
  function Digits(n: nat, k: nat): (s: string)
    ensures |s| == k
  {
    if k == 0 then "" else Digits(n / 16, k - 1) + [UPPER[n % 16]]
  }

  function Width(n: nat): nat { if n < 16 then 1 else 1 + Width(n / 16) }

  /** fmt's %08X: eight digits, or as many as a larger number needs. */
  function Hex8(n: nat): string { Digits(n, if n < WORD then 8 else Width(n)) }

  function Value(s: string): nat {
    if s == "" then 0 else Value(s[..|s| - 1]) * 16 + HexValue(s[|s| - 1])
  }

  function Power(k: nat): nat { if k == 0 then 1 else 16 * Power(k - 1) }

  lemma {:induction false} DigitsAreRead(n: nat, k: nat)
    requires n < Power(k)
    ensures Value(Digits(n, k)) == n
  {
    if k > 0 {
      PowerDivides(n, k);
      DigitsAreRead(n / 16, k - 1);
      UpperIsRead(n % 16);
      hide HexValue, UPPER, Power;
      var s := Digits(n, k);
      assert s[..k - 1] == Digits(n / 16, k - 1);
    }
  }

  lemma PowerDivides(n: nat, k: nat)
    requires k > 0 && n < Power(k)
    ensures n / 16 < Power(k - 1)
  {
  }

  lemma UpperIsRead(d: nat)
    requires d < 16
    ensures HexValue(UPPER[d]) == d
  {
  }

  lemma Hex8IsRead(n: nat)
    requires n < WORD
    ensures |Hex8(n)| == 8 && Value(Hex8(n)) == n
  {
    assert Power(2) == 256 && Power(4) == 65536;
    assert Power(8) == WORD;
    DigitsAreRead(n, 8);
  }

  // ----- the writer

  function Fields(fs: seq<nat>): string {
    if fs == [] then "" else Hex8(fs[0]) + Fields(fs[1..])
  }

  /** Two links for a directory, one for anything else. */
  function Links(mode: nat): nat { if mode / 0x1000 % 16 == 4 then 2 else 1 }

  function HeaderFields(ino: nat, e: Entry): seq<nat> {
    [ino, e.mode, 0, 0, Links(e.mode), 0, |e.data|, 0, 0, e.rdevMajor, e.rdevMinor, |e.name| + 1, 0]
  }

  function Header(ino: nat, e: Entry): string {
    "070701" + Fields(HeaderFields(ino, e))
  }

  function Zeros(k: nat): string { if k == 0 then "" else Zeros(k - 1) + [NUL] }

  /** What is written after n bytes to reach the next multiple of four. */
  function Padding(n: nat): string { Zeros((4 - n % 4) % 4) }

  function Padded(s: string): string { s + Padding(|s|) }

  function RecordOf(ino: nat, e: Entry): string {
    Padded(Header(ino, e) + e.name + [NUL]) + Padded(e.data)
  }

  /** The records of the entries from the i-th on, and the trailer. */
  function Records(entries: seq<Entry>, i: nat): string
    requires i <= |entries|
    decreases |entries| - i
  {
    if i == |entries| then RecordOf(0, Entry(TRAILER, 0, 0, 0, ""))
    else RecordOf(i + 1, entries[i]) + Records(entries, i + 1)
  }

  function Archive(entries: seq<Entry>): string { Records(entries, 0) }

  /** pad. */
  method Pad(b: string) returns (out: string)
    ensures b <= out && |out| < |b| + 4 && |out| % 4 == 0 && forall i | |b| <= i < |out| :: out[i] == NUL
    ensures out == Padded(b)
  {
    out := b;
    ghost var k := 0;
    while |out| % 4 != 0
      invariant out == b + Zeros(k) && |out| == |b| + k && k <= (4 - |b| % 4) % 4
      invariant forall i | |b| <= i < |out| :: out[i] == NUL
      decreases 4 - k
    {
      out := out + [NUL];
      k := k + 1;
      assert b + Zeros(k) == b + Zeros(k - 1) + [NUL];
    }
  }

  method Write(b: string, ino: nat, e: Entry) returns (out: string)
    requires |b| % 4 == 0
    ensures out == b + RecordOf(ino, e) && |out| % 4 == 0
  {
    hide Header;
    out := b + Header(ino, e);
    out := out + e.name;
    out := out + [NUL];
    assert out == b + (Header(ino, e) + e.name + [NUL]);
    PaddedAfter(b, Header(ino, e) + e.name + [NUL]);
    out := Pad(out);
    ghost var named := out;
    out := out + e.data;
    PaddedAfter(named, e.data);
    out := Pad(out);
  }

  lemma PaddedAfter(b: string, s: string)
    requires |b| % 4 == 0
    ensures Padded(b + s) == b + Padded(s)
  {
    assert |b + s| % 4 == |s| % 4;
  }

  /** newcArchive. */
  method NewcArchive(entries: seq<Entry>) returns (b: string)
    ensures b == Archive(entries)
  {
    hide RecordOf;
    b := "";
    for i := 0 to |entries|
      invariant |b| % 4 == 0 && b + Records(entries, i) == Archive(entries)
    {
      b := Write(b, i + 1, entries[i]);
    }
    b := Write(b, 0, Entry(TRAILER, 0, 0, 0, ""));
  }

  // ----- the reader

  /** A file as the reader finds it, with its owner, group, time, device and checksum, and where its header
      and its data start in the archive. */
  datatype File = File(ino: nat, links: nat, others: seq<nat>, entry: Entry, headerAt: nat, dataAt: nat)

  function Align(n: nat): nat { n + (4 - n % 4) % 4 }

  /** A NUL-terminated name. */
  function CString(s: string): string { s[..IndexOf(s, NUL)] }

  function Field(s: string, i: nat): nat
    requires |s| >= 110 && i < 13
  {
    Value(s[6 + 8 * i..14 + 8 * i])
  }

  function Others(s: string): seq<nat>
    requires |s| >= 110
  {
    [Field(s, 2), Field(s, 3), Field(s, 5), Field(s, 7), Field(s, 8), Field(s, 12)]
  }

  /** The files of an archive, of which s is what is left from offset at: a header of thirteen
      numbers, a name of the size it gives, the data of the size it gives, each of them at the
      next multiple of four, up to the trailer. */
  function Unpack(s: string, at: nat): Option<seq<File>>
    decreases |s|
  {
    if |s| < 110 || s[..6] != "070701" then None else
      var nameSize, dataSize := Field(s, 11), Field(s, 6);
      var dataAt := Align(at + 110 + nameSize) - at;
      if nameSize == 0 || |s| < dataAt + dataSize || |s| < 110 + nameSize then None else
        var name := CString(s[110..110 + nameSize]);
        if name == TRAILER then Some([]) else
          var e := Entry(name, Field(s, 1), Field(s, 9), Field(s, 10), s[dataAt..dataAt + dataSize]);
          var next := Align(at + dataAt + dataSize) - at;
          if |s| < next then None else
            match Unpack(s[next..], at + next)
            case None => None
            case Some(files) => Some([File(Field(s, 0), Field(s, 4), Others(s), e, at, at + dataAt)] + files)
  }

  // ----- the round trip

  /** Everything the header holds in eight digits fits in them. */
  predicate Fits(e: Entry) {
    e.mode < WORD && e.rdevMajor < WORD && e.rdevMinor < WORD && |e.data| < WORD && |e.name| + 1 < WORD
  }

  predicate AllFit(entries: seq<Entry>) {
    |entries| + 1 < WORD && forall i | 0 <= i < |entries| :: Fits(entries[i])
  }

  /** What a reader sees of entries whatever their names: each name up to its first NUL, and nothing
      from the first that then reads as the trailer on. */
  function Seen(entries: seq<Entry>, i: nat): seq<Entry>
    requires i <= |entries|
    decreases |entries| - i
  {
    if i == |entries| || CString(entries[i].name + [NUL]) == TRAILER then []
    else [entries[i].(name := CString(entries[i].name + [NUL]))] + Seen(entries, i + 1)
  }

  lemma {:induction false} FieldsAre(fs: seq<nat>, i: nat)
    requires i < |fs| && forall k | 0 <= k < |fs| :: fs[k] < WORD
    ensures |Fields(fs)| == 8 * |fs| && Fields(fs)[8 * i..8 * i + 8] == Hex8(fs[i])
    decreases |fs|
  {
    hide Hex8;
    Hex8IsRead(fs[0]);
    if |fs| > 1 {
      FieldsAre(fs[1..], if i > 0 then i - 1 else 0);
    } else {
      assert Fields(fs[1..]) == "";
    }
    if i > 0 {
      assert Fields(fs)[8 * i..8 * i + 8] == Fields(fs[1..])[8 * (i - 1)..8 * (i - 1) + 8];
    }
  }

  lemma HeaderIsRead(ino: nat, e: Entry, more: string, i: nat)
    requires Fits(e) && ino < WORD && i < 13
    ensures |Header(ino, e)| == 110 && (Header(ino, e) + more)[..6] == "070701"
    ensures Field(Header(ino, e) + more, i) == HeaderFields(ino, e)[i]
  {
    hide Hex8, Fields, HeaderFields, Value;
    HeaderFieldsFit(ino, e);
    FieldsAre(HeaderFields(ino, e), i);
    Hex8IsRead(HeaderFields(ino, e)[i]);
    var s := Header(ino, e) + more;
    assert s[6 + 8 * i..14 + 8 * i] == Fields(HeaderFields(ino, e))[8 * i..8 * i + 8];
  }

  lemma HeaderFieldsFit(ino: nat, e: Entry)
    requires Fits(e) && ino < WORD
    ensures |HeaderFields(ino, e)| == 13 && forall k | 0 <= k < 13 :: HeaderFields(ino, e)[k] < WORD
  {
  }

  lemma {:induction false} ZerosLength(k: nat)
    ensures |Zeros(k)| == k
  {
    if k > 0 {
      ZerosLength(k - 1);
    }
  }

  lemma PaddedLength(s: string)
    ensures |Padded(s)| == Align(|s|) && Align(|s|) % 4 == 0 && Padded(s)[..|s|] == s
  {
    ZerosLength((4 - |s| % 4) % 4);
  }

  /** A record laid out: where its name, its data and the next record start. */
  lemma RecordLayout(ino: nat, e: Entry, more: string)
    requires Fits(e) && ino < WORD
    ensures var s, n := RecordOf(ino, e) + more, 110 + |e.name| + 1;
            && |RecordOf(ino, e)| == Align(n) + Align(|e.data|) && Align(n) % 4 == 0 && Align(|e.data|) % 4 == 0
            && Header(ino, e) <= s && |Header(ino, e)| == 110
            && s[110..n] == e.name + [NUL]
            && s[Align(n)..Align(n) + |e.data|] == e.data
            && s[Align(n) + Align(|e.data|)..] == more
  {
    hide Header, Padded;
    HeaderIsRead(ino, e, more, 0);
    var named := Header(ino, e) + e.name + [NUL];
    PaddedLength(named);
    PaddedLength(e.data);
    var s := RecordOf(ino, e) + more;
    assert s[..|named|] == Padded(named)[..|named|] == named;
    assert s[110..|named|] == named[110..] == e.name + [NUL];
    assert s[|Padded(named)|..|Padded(named)| + |e.data|] == Padded(e.data)[..|e.data|];
  }

  lemma AlignAt(at: nat, n: nat)
    requires at % 4 == 0
    ensures Align(at + n) == at + Align(n)
  {
  }

  /** A directory has two links and anything else one, by the four bits of the mode that say what it is. */
  function LinksOf(mode: nat): nat { if 0x4000 <= mode % 0x10000 < 0x5000 then 2 else 1 }

  predicate HeaderReads(s: string, ino: nat, e: Entry) {
    && |s| >= 110 && s[..6] == "070701"
    && Field(s, 0) == ino && Field(s, 1) == e.mode && Field(s, 6) == |e.data|
    && Field(s, 4) == LinksOf(e.mode) && Others(s) == [0, 0, 0, 0, 0, 0]
    && Field(s, 9) == e.rdevMajor && Field(s, 10) == e.rdevMinor && Field(s, 11) == |e.name| + 1
  }

  lemma LinksAre(mode: nat)
    ensures Links(mode) == LinksOf(mode)
  {
    var q, r := mode / 0x10000, mode % 0x10000;
    var k := r / 0x1000;
    assert mode == 0x10000 * q + r && 0x1000 * k <= r < 0x1000 * k + 0x1000 && k < 16;
    KindOf(mode, 16 * q + k);
    assert (16 * q + k) % 16 == k;
  }

  lemma KindOf(n: nat, m: nat)
    requires 0x1000 * m <= n < 0x1000 * m + 0x1000
    ensures n / 0x1000 == m
  {
  }

  lemma RecordHeaderReads(ino: nat, e: Entry, more: string)
    requires Fits(e) && ino < WORD
    ensures HeaderReads(RecordOf(ino, e) + more, ino, e)
  {
    hide Field, Header, RecordOf;
    RecordLayout(ino, e, more);
    var s := RecordOf(ino, e) + more;
    var rest := s[110..];
    assert s == Header(ino, e) + rest;
    HeaderIsRead(ino, e, rest, 0);
    HeaderIsRead(ino, e, rest, 1);
    HeaderIsRead(ino, e, rest, 2);
    HeaderIsRead(ino, e, rest, 3);
    HeaderIsRead(ino, e, rest, 4);
    HeaderIsRead(ino, e, rest, 5);
    HeaderIsRead(ino, e, rest, 6);
    HeaderIsRead(ino, e, rest, 7);
    HeaderIsRead(ino, e, rest, 8);
    HeaderIsRead(ino, e, rest, 9);
    HeaderIsRead(ino, e, rest, 10);
    HeaderIsRead(ino, e, rest, 11);
    HeaderIsRead(ino, e, rest, 12);
    LinksAre(e.mode);
  }

  /** One record is read back, at an aligned offset, and the reader is left at the next. */
  lemma UnpackRecord(ino: nat, e: Entry, more: string, at: nat)
    requires Fits(e) && ino < WORD && at % 4 == 0
    ensures var s, name := RecordOf(ino, e) + more, CString(e.name + [NUL]);
            var dataAt := Align(110 + |e.name| + 1);
            var next := at + |RecordOf(ino, e)|;
            && dataAt % 4 == 0 && next % 4 == 0
            && Unpack(s, at) ==
               if name == TRAILER then Some([])
               else match Unpack(more, next)
                    case None => None
                    case Some(files) =>
                      Some([File(ino, LinksOf(e.mode), [0, 0, 0, 0, 0, 0], e.(name := name), at, at + dataAt)] + files)
  {
    hide Field, Header, RecordOf, CString, Align, HeaderFields, Others, LinksOf;
    RecordLayout(ino, e, more);
    RecordHeaderReads(ino, e, more);
    AlignAt(at, 110 + |e.name| + 1);
    var dataAt := Align(110 + |e.name| + 1);
    AlignAt(at + dataAt, |e.data|);
    AlignGrows(110 + |e.name| + 1);
    AlignGrows(|e.data|);
  }

  lemma AlignGrows(n: nat)
    ensures n <= Align(n)
  {
  }

  predicate Aligned(f: File) { f.headerAt % 4 == 0 && f.dataAt % 4 == 0 }

  function EntriesOf(files: seq<File>): (r: seq<Entry>)
    ensures |r| == |files| && forall i | 0 <= i < |files| :: r[i] == files[i].entry
  {
    if files == [] then [] else [files[0].entry] + EntriesOf(files[1..])
  }

  /** What every file is written with: its number, its links, and nothing in the rest of its header. */
  predicate Numbered(files: seq<File>, i: nat) {
    forall k | 0 <= k < |files| ::
      && files[k].ino == i + k + 1 && files[k].links == LinksOf(files[k].entry.mode)
      && files[k].others == [0, 0, 0, 0, 0, 0] && Aligned(files[k])
  }

  lemma {:induction false} UnpackRecords(entries: seq<Entry>, i: nat, at: nat)
    requires AllFit(entries) && i <= |entries| && at % 4 == 0
    ensures Unpack(Records(entries, i), at).Some?
    ensures EntriesOf(Unpack(Records(entries, i), at).value) == Seen(entries, i)
    ensures Numbered(Unpack(Records(entries, i), at).value, i)
    decreases |entries| - i
  {
    hide RecordOf, CString, Unpack, Align, Fits;
    if i == |entries| {
      var trailer := Entry(TRAILER, 0, 0, 0, "");
      TrailerFits();
      UnpackRecord(0, trailer, "", at);
      assert RecordOf(0, trailer) + "" == RecordOf(0, trailer);
      TrailerReads();
    } else {
      var next := at + |RecordOf(i + 1, entries[i])|;
      UnpackRecord(i + 1, entries[i], Records(entries, i + 1), at);
      UnpackRecords(entries, i + 1, next);
      var files := Unpack(Records(entries, i), at).value;
      if CString(entries[i].name + [NUL]) != TRAILER {
        var rest := Unpack(Records(entries, i + 1), next).value;
        assert files[1..] == rest;
        forall k | 0 <= k < |files|
          ensures files[k].ino == i + k + 1 && files[k].links == LinksOf(files[k].entry.mode)
          ensures files[k].others == [0, 0, 0, 0, 0, 0] && Aligned(files[k])
        {
          if k > 0 {
            assert files[k] == rest[k - 1];
          }
        }
      }
    }
  }

  lemma TrailerFits()
    ensures Fits(Entry(TRAILER, 0, 0, 0, ""))
  {
  }

  lemma TrailerReads()
    ensures CString(TRAILER + [NUL]) == TRAILER
  {
    NameReads(TRAILER);
  }

  lemma NameReads(name: string)
    ensures CString(name + [NUL]) == name <==> NUL !in name
    ensures CString(name + [NUL]) == TRAILER && NUL !in name ==> name == TRAILER
  {
    if NUL !in name {
      IndexOfFirst(name, NUL, "");
      assert name + [NUL] + "" == name + [NUL];
      assert (name + [NUL])[..|name|] == name;
    } else {
      var s := name + [NUL];
      assert NUL !in s[..IndexOf(s, NUL)];
    }
  }

  /** A name the format can carry. */
  predicate NameOk(name: string) { NUL !in name && name != TRAILER }

  lemma {:induction false} SeenIs(entries: seq<Entry>, i: nat)
    requires i <= |entries|
    ensures Seen(entries, i) == entries[i..] <==> forall k | i <= k < |entries| :: NameOk(entries[k].name)
    decreases |entries| - i
  {
    hide CString;
    if i < |entries| {
      SeenIs(entries, i + 1);
      NameReads(entries[i].name);
      var seen := Seen(entries, i);
      assert entries[i..] == [entries[i]] + entries[i + 1..];
      if NameOk(entries[i].name) {
        assert seen == [entries[i]] + Seen(entries, i + 1);
        assert seen[1..] == Seen(entries, i + 1) && entries[i..][1..] == entries[i + 1..];
      } else if seen != [] {
        assert seen[0].name != entries[i].name;
      }
    }
  }

  /** The round trip, exactly: with sizes that fit, a reader always gets through the archive, every
      header and every file's data at a multiple of four, every file with its own number; and it
      has just the entries that were written if and only if no name holds a NUL or is the
      trailer's. */
  lemma ArchiveIsReadBack(entries: seq<Entry>)
    requires AllFit(entries)
    ensures Unpack(Archive(entries), 0).Some?
    ensures Numbered(Unpack(Archive(entries), 0).value, 0)
    ensures EntriesOf(Unpack(Archive(entries), 0).value) == entries <==>
            forall k | 0 <= k < |entries| :: NameOk(entries[k].name)
  {
    hide Unpack, Records, Seen, NameOk;
    UnpackRecords(entries, 0, 0);
    SeenIs(entries, 0);
    assert entries[0..] == entries;
  }

  /** An entry with any other name does not come back, whatever else there is of it. */
  lemma ABadNameIsLost(name: string, mode: nat, data: string)
    requires !NameOk(name) && |name| + 1 < WORD && mode < WORD && |data| < WORD
    ensures var entries := [Entry(name, mode, 0, 0, data)];
            AllFit(entries) && Unpack(Archive(entries), 0).Some? &&
            EntriesOf(Unpack(Archive(entries), 0).value) != entries
  {
    hide Unpack, Archive, NameOk;
    var entries := [Entry(name, mode, 0, 0, data)];
    ArchiveIsReadBack(entries);
    assert !NameOk(entries[0].name);
  }

  /** Such names are the trailer's own, and one with a NUL at its end. */
  lemma BadNames()
    ensures !NameOk(TRAILER) && |TRAILER| == 10 && !NameOk("a\0")
  {
    assert "a\0"[1] == NUL;
  }
}
