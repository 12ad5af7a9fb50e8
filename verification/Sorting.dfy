/** slices.Sort as what it promises: the one ordered arrangement of the same elements. */
module Sorting {

  /** le orders every two elements and no two different ones both ways. */
  ghost predicate TotalOrder<T(!new)>(le: (T, T) -> bool) {
    && (forall a, b :: le(a, b) || le(b, a))
    && (forall a, b :: le(a, b) && le(b, a) ==> a == b)
    && (forall a, b, c :: le(a, b) && le(b, c) ==> le(a, c))
  }

  ghost predicate Sorted<T>(s: seq<T>, le: (T, T) -> bool) {
    forall i, j | 0 <= i < j < |s| :: le(s[i], s[j])
  }

  function Insert<T>(x: T, s: seq<T>, le: (T, T) -> bool): seq<T> {
    if s == [] || le(x, s[0]) then [x] + s else [s[0]] + Insert(x, s[1..], le)
  }

  function Sort<T>(s: seq<T>, le: (T, T) -> bool): seq<T> {
    if s == [] then [] else Insert(s[0], Sort(s[1..], le), le)
  }

  lemma {:induction false} InsertSorted<T(!new)>(x: T, s: seq<T>, le: (T, T) -> bool)
    requires TotalOrder(le) && Sorted(s, le)
    ensures Sorted(Insert(x, s, le), le) && multiset(Insert(x, s, le)) == multiset{x} + multiset(s)
  {
    if s == [] || le(x, s[0]) {
      SortedCons(x, s, le);
    } else {
      SortedTail(s, le);
      InsertSorted(x, s[1..], le);
      var tail := Insert(x, s[1..], le);
      forall y | y in tail ensures le(s[0], y) {
        assert y in multiset(tail);
        BelowTail(x, s, y, le);
      }
      SortedCons(s[0], tail, le);
    }
  }

  /** What is not above the first of an ordered list, or above nothing of it, may go before it. */
  lemma SortedCons<T(!new)>(x: T, s: seq<T>, le: (T, T) -> bool)
    requires TotalOrder(le) && Sorted(s, le) && (s == [] || le(x, s[0]) || forall y | y in s :: le(x, y))
    ensures Sorted([x] + s, le) && multiset([x] + s) == multiset{x} + multiset(s)
  {
    var r := [x] + s;
    forall i, j | 0 <= i < j < |r| ensures le(r[i], r[j]) {
      assert r[j] == s[j - 1] && s[j - 1] in s;
      if i > 0 {
        assert r[i] == s[i - 1];
      } else if j > 1 {
        assert le(s[0], s[j - 1]);
      }
    }
  }

  lemma BelowTail<T(!new)>(x: T, s: seq<T>, y: T, le: (T, T) -> bool)
    requires TotalOrder(le) && s != [] && Sorted(s, le) && le(s[0], x) && (y == x || y in s[1..])
    ensures le(s[0], y)
  {
    if y != x {
      var k :| 0 <= k < |s[1..]| && s[1..][k] == y;
      assert s[k + 1] == y;
    }
  }

  lemma {:induction false} SortSorts<T(!new)>(s: seq<T>, le: (T, T) -> bool)
    requires TotalOrder(le)
    ensures Sorted(Sort(s, le), le) && multiset(Sort(s, le)) == multiset(s) && |Sort(s, le)| == |s|
  {
    if s != [] {
      SortSorts(s[1..], le);
      InsertSorted(s[0], Sort(s[1..], le), le);
      assert s == [s[0]] + s[1..];
    }
    assert |multiset(s)| == |s| && |multiset(Sort(s, le))| == |Sort(s, le)|;
  }

  /** Two ordered arrangements of the same elements are one. */
  lemma {:induction false} SortedIsUnique<T(!new)>(a: seq<T>, b: seq<T>, le: (T, T) -> bool)
    requires TotalOrder(le) && Sorted(a, le) && Sorted(b, le) && multiset(a) == multiset(b)
    ensures a == b
  {
    if a == [] {
      assert |multiset(b)| == |b|;
    } else {
      assert b != [] by {
        assert a[0] in multiset(a);
      }
      LeastIsFirst(a, b, le);
      LeastIsFirst(b, a, le);
      SortedTail(a, le);
      SortedTail(b, le);
      hide Sorted;
      assert a[0] == b[0] by { AreOne(a[0], b[0], le); }
      SortedIsUnique(a[1..], b[1..], le);
      assert a == [a[0]] + a[1..] && b == [b[0]] + b[1..];
    }
  }

  lemma AreOne<T(!new)>(a: T, b: T, le: (T, T) -> bool)
    requires TotalOrder(le) && le(a, b) && le(b, a)
    ensures a == b
  {
  }

  lemma SortedTail<T(!new)>(s: seq<T>, le: (T, T) -> bool)
    requires s != [] && Sorted(s, le)
    ensures Sorted(s[1..], le) && multiset(s[1..]) == multiset(s) - multiset{s[0]}
  {
    assert s == [s[0]] + s[1..];
  }

  lemma LeastIsFirst<T(!new)>(a: seq<T>, b: seq<T>, le: (T, T) -> bool)
    requires TotalOrder(le) && Sorted(a, le) && multiset(a) == multiset(b) && a != [] && b != []
    ensures le(a[0], b[0])
  {
    assert b[0] in multiset(b);
    var k :| 0 <= k < |a| && a[k] == b[0];
  }

  /** Sorting forgets the order it was given. */
  lemma SortOfPermutation<T(!new)>(a: seq<T>, b: seq<T>, le: (T, T) -> bool)
    requires TotalOrder(le) && multiset(a) == multiset(b)
    ensures Sort(a, le) == Sort(b, le)
  {
    SortSorts(a, le);
    SortSorts(b, le);
    SortedIsUnique(Sort(a, le), Sort(b, le), le);
  }

  // ----- in place

  /** All of s[..i + 1] is in order but for the element at j, which may belong further down. */
  ghost predicate SortedBut<T>(s: seq<T>, j: nat, i: nat, le: (T, T) -> bool)
    requires j <= i < |s|
  {
    forall p, q | 0 <= p < q <= i && q != j :: le(s[p], s[q])
  }

  function Swapped<T>(s: seq<T>, j: nat): seq<T>
    requires 0 < j < |s|
  {
    s[j - 1 := s[j]][j := s[j - 1]]
  }

  lemma SwapKeeps<T(!new)>(s: seq<T>, j: nat, i: nat, le: (T, T) -> bool)
    requires TotalOrder(le) && 0 < j <= i < |s| && SortedBut(s, j, i, le) && !le(s[j - 1], s[j])
    ensures SortedBut(Swapped(s, j), j - 1, i, le) && multiset(Swapped(s, j)) == multiset(s)
  {
    var t := Swapped(s, j);
    assert le(s[j], s[j - 1]);
    forall p, q | 0 <= p < q <= i && q != j - 1 ensures le(t[p], t[q]) {
      if q == j && p < j - 1 {
        assert le(s[p], s[j - 1]);
      }
    }
  }

  lemma SortedNow<T(!new)>(s: seq<T>, j: nat, i: nat, le: (T, T) -> bool)
    requires TotalOrder(le) && j <= i < |s| && SortedBut(s, j, i, le) && (j == 0 || le(s[j - 1], s[j]))
    ensures Sorted(s[..i + 1], le)
  {
    var t := s[..i + 1];
    forall p, q | 0 <= p < q < |t| ensures le(t[p], t[q]) {
      if q == j && p < j - 1 {
        assert le(s[p], s[j - 1]);
      }
    }
  }

  lemma SortedSoFar<T>(s: seq<T>, i: nat, le: (T, T) -> bool)
    requires i < |s| && Sorted(s[..i], le)
    ensures SortedBut(s, i, i, le)
  {
    forall p, q | 0 <= p < q <= i && q != i ensures le(s[p], s[q]) {
      assert le(s[..i][p], s[..i][q]);
    }
  }

  /** slices.Sort, on the array it is given. */
  method SortInPlace<T(!new)>(a: array<T>, le: (T, T) -> bool)
    requires TotalOrder(le)
    modifies a
    ensures a[..] == Sort(old(a[..]), le)
  {
    hide TotalOrder, Sorted, SortedBut, Sort;
    ghost var was := a[..];
    assert Sorted(a[..0], le) by { NothingSorted(a[..0], le); }
    for i := 0 to a.Length
      invariant Sorted(a[..i], le) && multiset(a[..]) == multiset(was)
    {
      SortedSoFar(a[..], i, le);
      var j := i;
      while j > 0 && !le(a[j - 1], a[j])
        invariant j <= i && SortedBut(a[..], j, i, le) && multiset(a[..]) == multiset(was)
      {
        ghost var s := a[..];
        SwapKeeps(s, j, i, le);
        a[j - 1], a[j] := a[j], a[j - 1];
        assert a[..] == Swapped(s, j);
        j := j - 1;
      }
      SortedNow(a[..], j, i, le);
      assert a[..][..i + 1] == a[..i + 1];
    }
    assert a[..a.Length] == a[..];
    SortSorts(was, le);
    SortedIsUnique(a[..], Sort(was, le), le);
  }

  lemma NothingSorted<T>(s: seq<T>, le: (T, T) -> bool)
    requires s == []
    ensures Sorted(s, le)
  {
  }
}
