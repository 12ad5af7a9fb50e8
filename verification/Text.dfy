/** Strings as the repository's Go code handles them: a char stands for one byte.
    Decimal and hexadecimal printing, and cutting, splitting and joining at a byte. */
module Text {

  datatype Option<+T> = None | Some(value: T)

  function Max(a: int, b: int): int { if a > b then a else b }

  predicate Distinct<T(==)>(xs: seq<T>) {
    forall i, j | 0 <= i < j < |xs| :: xs[i] != xs[j]
  }

  // ----- numerals

  const DIGITS: string := "0123456789abcdef"

  function DigitValue(c: char): nat {
    if '0' <= c <= '9' then c as int - '0' as int
    else if 'a' <= c <= 'f' then c as int - 'a' as int + 10
    else 0
  }

  predicate IsDecimal(c: char) { '0' <= c <= '9' }

  predicate IsHex(c: char) { IsDecimal(c) || 'a' <= c <= 'f' }

  /** The numeral of n in the given base, without leading zeros. */
  function Numeral(n: nat, base: nat): (s: string)
    requires 2 <= base <= 16
    decreases n
  {
    if n < base then [DIGITS[n]] else Numeral(n / base, base) + [DIGITS[n % base]]
  }

  /** What a numeral stands for. */
  function NumeralValue(s: string, base: nat): nat {
    if s == [] then 0 else NumeralValue(s[..|s| - 1], base) * base + DigitValue(s[|s| - 1])
  }

  lemma DigitOf(n: nat)
    requires n < 16
    ensures DigitValue(DIGITS[n]) == n && IsHex(DIGITS[n]) && (n < 10 ==> IsDecimal(DIGITS[n]))
  {
  }

  lemma {:induction false} NumeralShape(n: nat, base: nat)
    requires base == 10 || base == 16
    ensures |Numeral(n, base)| > 0
    ensures forall c | c in Numeral(n, base) :: IsHex(c) && (base == 10 ==> IsDecimal(c))
    decreases n
  {
    DigitOf(n % base);
    if n >= base {
      NumeralShape(n / base, base);
    }
  }

  lemma {:induction false} NumeralIsRead(n: nat, base: nat)
    requires base == 10 || base == 16
    ensures NumeralValue(Numeral(n, base), base) == n
    decreases n
  {
    DigitOf(n % base);
    var s := Numeral(n, base);
    if n < base {
      assert s[..0] == [];
    } else {
      NumeralIsRead(n / base, base);
      assert s[..|s| - 1] == Numeral(n / base, base);
    }
  }

  /** fmt's %d. */
  function Itoa(n: int): string {
    if n < 0 then "-" + Numeral(-n, 10) else Numeral(n, 10)
  }

  /** fmt's %x of a number that is not negative. */
  function Hex(n: nat): string {
    Numeral(n, 16)
  }

  predicate IsIntChar(c: char) { IsDecimal(c) || c == '-' }

  lemma ItoaShape(n: int)
    ensures |Itoa(n)| > 0
    ensures forall c | c in Itoa(n) :: IsIntChar(c)
    ensures n >= 0 ==> forall c | c in Itoa(n) :: IsDecimal(c)
  {
    NumeralShape(if n < 0 then -n else n, 10);
  }

  /** A number is read back from what is printed of it, digit by digit in the base it is printed in. */
  lemma NumbersAreRead(n: int)
    ensures n >= 0 ==> NumeralValue(Itoa(n), 10) == n && NumeralValue(Hex(n), 16) == n
    ensures n < 0 ==> Itoa(n)[0] == '-' && NumeralValue(Itoa(n)[1..], 10) == -n
  {
    if n >= 0 {
      NumeralIsRead(n, 10);
      NumeralIsRead(n, 16);
    } else {
      NumeralIsRead(-n, 10);
      assert Itoa(n)[1..] == Numeral(-n, 10);
    }
  }

  lemma ItoaInjective(a: int, b: int)
    requires Itoa(a) == Itoa(b)
    ensures a == b
  {
    NumeralIsRead(if a < 0 then -a else a, 10);
    NumeralIsRead(if b < 0 then -b else b, 10);
    ItoaShape(a);
    ItoaShape(b);
    assert a < 0 ==> Itoa(a)[0] == '-' && Itoa(a)[1..] == Numeral(-a, 10);
    assert b < 0 ==> Itoa(b)[0] == '-' && Itoa(b)[1..] == Numeral(-b, 10);
    assert a >= 0 ==> Itoa(a)[0] in Numeral(a, 10);
    assert b >= 0 ==> Itoa(b)[0] in Numeral(b, 10);
  }

  lemma HexInjective(a: nat, b: nat)
    requires Hex(a) == Hex(b)
    ensures a == b
  {
    NumeralIsRead(a, 16);
    NumeralIsRead(b, 16);
  }

  // ----- cutting at a byte

  /** The position of the first c in s, or |s|. */
  function IndexOf(s: string, c: char): (i: nat)
    ensures i <= |s| && c !in s[..i] && (i < |s| ==> s[i] == c)
  {
    if s == [] || s[0] == c then 0 else
      var i := IndexOf(s[1..], c) + 1;
      assert s[..i] == [s[0]] + s[1..][..i - 1];
      i
  }

  lemma {:induction false} IndexOfFirst(a: string, c: char, b: string)
    requires c !in a
    ensures IndexOf(a + [c] + b, c) == |a|
  {
    if a == [] {
      assert (a + [c] + b)[0] == c;
    } else {
      assert (a + [c] + b)[1..] == a[1..] + [c] + b;
      IndexOfFirst(a[1..], c, b);
    }
  }

  lemma IndexOfAbsent(a: string, c: char)
    requires c !in a
    ensures IndexOf(a, c) == |a|
  {
  }

  /** strings.Cut at a one-byte separator: what is before the first and what is after it. */
  function Cut(s: string, c: char): Option<(string, string)> {
    var i := IndexOf(s, c);
    if i == |s| then None else Some((s[..i], s[i + 1..]))
  }

  lemma CutOf(a: string, c: char, b: string)
    requires c !in a
    ensures Cut(a + [c] + b, c) == Some((a, b))
  {
    IndexOfFirst(a, c, b);
    var s := a + [c] + b;
    assert s[..|a|] == a && s[|a| + 1..] == b;
  }

  lemma CutBack(s: string, c: char)
    requires Cut(s, c).Some?
    ensures s == Cut(s, c).value.0 + [c] + Cut(s, c).value.1
    ensures c !in Cut(s, c).value.0
  {
  }

  // ----- splitting and joining at a byte

  /** strings.Split at a one-byte separator. */
  function Split(s: string, c: char): (parts: seq<string>)
    ensures |parts| > 0
    decreases |s|
  {
    var i := IndexOf(s, c);
    if i == |s| then [s] else [s[..i]] + Split(s[i + 1..], c)
  }

  /** strings.Join. */
  function Join(parts: seq<string>, sep: string): string {
    if parts == [] then ""
    else if |parts| == 1 then parts[0]
    else parts[0] + sep + Join(parts[1..], sep)
  }

  lemma {:induction false} JoinLast(parts: seq<string>, last: string, sep: string)
    requires parts != []
    ensures Join(parts + [last], sep) == Join(parts, sep) + sep + last
  {
    if |parts| == 1 {
      assert (parts + [last])[1..] == [last];
    } else {
      assert (parts + [last])[1..] == parts[1..] + [last];
      JoinLast(parts[1..], last, sep);
    }
  }

  lemma {:induction false} SplitJoin(parts: seq<string>, c: char)
    requires |parts| > 0
    requires forall p | p in parts :: c !in p
    ensures Split(Join(parts, [c]), c) == parts
  {
    var s := Join(parts, [c]);
    if |parts| == 1 {
      IndexOfAbsent(parts[0], c);
    } else {
      var rest := Join(parts[1..], [c]);
      IndexOfFirst(parts[0], c, rest);
      assert s[..|parts[0]|] == parts[0];
      assert s[|parts[0]| + 1..] == rest;
      SplitJoin(parts[1..], c);
    }
  }

  lemma JoinInjective(a: seq<string>, b: seq<string>, c: char)
    requires |a| > 0 && |b| > 0
    requires forall p | p in a :: c !in p
    requires forall p | p in b :: c !in p
    requires Join(a, [c]) == Join(b, [c])
    ensures a == b
  {
    SplitJoin(a, c);
    SplitJoin(b, c);
  }
}
