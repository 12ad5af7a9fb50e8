/** The report comparer: which row of one report stands for which of the other, and that every row
    of both is accounted for once. */
module Report {
  import opened Text

  /** One configuration: the choice it makes on each axis, its command line, and its boots. */
  datatype Row = Row(id: string, features: map<string, string>, args: seq<string>, fingerprint: string,
                     boots: nat, failed: nat, usable: Option<real>)

  // ----- the distance between two command lines

  /** The size of what is left of either when their common arguments are struck out, one for one. */
  ghost function Apart(a: seq<string>, b: seq<string>): nat {
    |multiset(a) - multiset(b)| + |multiset(b) - multiset(a)|
  }

  function Count(count: map<string, int>, s: string): int { if s in count then count[s] else 0 }

  /** distance: one count up for each argument of a, one down for each of b, and then every count
      taken without its sign, whatever order the table gives them in. */
  method Distance(a: seq<string>, b: seq<string>) returns (d: nat)
    ensures d == Apart(a, b)
  {
    var count: map<string, int> := map[];
    for i := 0 to |a|
      invariant forall s :: Count(count, s) == multiset(a[..i])[s]
    {
      assert a[..i + 1] == a[..i] + [a[i]];
      count := count[a[i] := Count(count, a[i]) + 1];
    }
    assert a[..|a|] == a;
    for j := 0 to |b|
      invariant forall s :: Count(count, s) == multiset(a)[s] as int - multiset(b[..j])[s] as int
    {
      assert b[..j + 1] == b[..j] + [b[j]];
      count := count[b[j] := Count(count, b[j]) - 1];
    }
    assert b[..|b|] == b;
    d := AddUp(count, multiset(a) - multiset(b), multiset(b) - multiset(a));
  }

  /** The last loop of distance: the counts without their signs, where x is what was counted up
      and y what was counted down. */
  method AddUp(count: map<string, int>, ghost x: multiset<string>, ghost y: multiset<string>) returns (d: nat)
    requires forall s :: Count(count, s) == x[s] as int - y[s] as int && (x[s] == 0 || y[s] == 0)
    ensures d == |x| + |y|
  {
    ghost var up, down := x, y;
    var keys := count.Keys;
    d := 0;
    while keys != {}
      invariant keys <= count.Keys
      invariant forall s :: up[s] == if s in keys then x[s] else 0
      invariant forall s :: down[s] == if s in keys then y[s] else 0
      invariant d + |up| + |down| == |x| + |y|
      decreases |keys|
    {
      var s :| s in keys;
      var n := count[s];
      assert n == Count(count, s);
      d := d + if n < 0 then -n else n;
      Removing(up, s);
      Removing(down, s);
      up, down := up[s := 0], down[s := 0];
      keys := keys - {s};
    }
    assert up == multiset{} && down == multiset{};
  }

  lemma Removing(x: multiset<string>, s: string)
    ensures |x[s := 0]| == |x| - x[s]
  {
  }

  lemma SubSize(x: multiset<string>, y: multiset<string>)
    requires x <= y
    ensures |x| <= |y|
  {
    assert y == x + (y - x);
  }

  /** The distance is a metric on command lines without their order. */
  lemma DistanceIsAMetric(a: seq<string>, b: seq<string>, c: seq<string>)
    ensures Apart(a, b) == 0 <==> multiset(a) == multiset(b)
    ensures Apart(a, b) == Apart(b, a)
    ensures Apart(a, c) <= Apart(a, b) + Apart(b, c)
  {
    var x, y, z := multiset(a), multiset(b), multiset(c);
    assert x - z <= (x - y) + (y - z);
    assert z - x <= (z - y) + (y - x);
    SubSize(x - z, (x - y) + (y - z));
    SubSize(z - x, (z - y) + (y - x));
    if Apart(a, b) == 0 {
      assert x - y == multiset{} && y - x == multiset{};
      forall s ensures x[s] == y[s] {
        assert (x - y)[s] == 0 && (y - x)[s] == 0;
      }
    }
  }

  // ----- which rows can stand for each other

  /** Where both rows choose, they choose alike; and either both choose on something or neither does. */
  predicate SameAxes(a: Row, b: Row) {
    && (a.features == map[]) == (b.features == map[])
    && forall k | k in a.features && k in b.features :: a.features[k] == b.features[k]
  }

  method CheckAxes(a: Row, b: Row) returns (same: bool)
    ensures same <==> SameAxes(a, b)
  {
    if (|a.features| == 0) != (|b.features| == 0) {
      return false;
    }
    var keys := a.features.Keys;
    while keys != {}
      invariant keys <= a.features.Keys
      invariant forall k | k in a.features && k in b.features && k !in keys :: a.features[k] == b.features[k]
      decreases |keys|
    {
      var k :| k in keys;
      if k in b.features && a.features[k] != b.features[k] {
        return false;
      }
      keys := keys - {k};
    }
    return true;
  }

  ghost predicate Eligible(r: Row, c: Row) {
    SameAxes(r, c) && (r.features == map[] ==> Apart(r.args, c.args) == 0)
  }

  /** The row at i stands nearest to r, and no other does as near. */
  ghost predicate NearestAt(r: Row, among: seq<Row>, i: nat)
    requires i < |among|
  {
    Eligible(r, among[i]) &&
    forall j | 0 <= j < |among| && j != i && Eligible(r, among[j]) ::
      Apart(r.args, among[j].args) > Apart(r.args, among[i].args)
  }

  /** How far apart two rows are, if they can stand for each other at all. */
  method Measure(r: Row, c: Row) returns (d: Option<nat>)
    ensures d.Some? <==> Eligible(r, c)
    ensures d.Some? ==> d.value == Apart(r.args, c.args)
  {
    var same := CheckAxes(r, c);
    if !same {
      return None;
    }
    var n := Distance(r.args, c.args);
    if |r.features| == 0 && n != 0 {
      return None;
    }
    return Some(n);
  }

  /** What the loop of nearest has found among the first k rows: nothing eligible, or the nearest
      at a position, and whether another is as near. */
  ghost predicate Found(r: Row, among: seq<Row>, k: nat, found: bool, at: nat, tie: bool)
    requires k <= |among|
  {
    if !found then forall j | 0 <= j < k :: !Eligible(r, among[j])
    else
      && at < k && Eligible(r, among[at])
      && (forall j | 0 <= j < k && Eligible(r, among[j]) ::
            Apart(r.args, among[j].args) >= Apart(r.args, among[at].args))
      && (tie <==> exists j | 0 <= j < k && j != at ::
                     Eligible(r, among[j]) && Apart(r.args, among[j].args) == Apart(r.args, among[at].args))
  }

  lemma FoundNext(r: Row, among: seq<Row>, k: nat, found: bool, at: nat, tie: bool)
    requires k < |among| && Found(r, among, k, found, at, tie)
    ensures !Eligible(r, among[k]) ==> Found(r, among, k + 1, found, at, tie)
    ensures Eligible(r, among[k]) && (!found || Apart(r.args, among[k].args) < Apart(r.args, among[at].args)) ==>
              Found(r, among, k + 1, true, k, false)
    ensures Eligible(r, among[k]) && found && Apart(r.args, among[k].args) == Apart(r.args, among[at].args) ==>
              Found(r, among, k + 1, true, at, true)
    ensures Eligible(r, among[k]) && found && Apart(r.args, among[k].args) > Apart(r.args, among[at].args) ==>
              Found(r, among, k + 1, true, at, tie)
  {
    hide Eligible, Apart;
  }

  lemma FoundAll(r: Row, among: seq<Row>, found: bool, at: nat, tie: bool)
    requires Found(r, among, |among|, found, at, tie)
    ensures found && !tie ==> NearestAt(r, among, at)
    ensures !found || tie ==> forall i | 0 <= i < |among| :: !NearestAt(r, among, i)
  {
    hide Eligible, Apart;
    if found && tie {
      var j :| 0 <= j < |among| && j != at && Eligible(r, among[j]) &&
          Apart(r.args, among[j].args) == Apart(r.args, among[at].args);
      forall i | 0 <= i < |among| ensures !NearestAt(r, among, i) {
      }
    }
  }

  /** nearest: the strictly nearest eligible row, if there is one. */
  method Nearest(r: Row, among: seq<Row>) returns (best: Option<nat>)
    ensures best.Some? ==> best.value < |among| && NearestAt(r, among, best.value)
    ensures best.None? ==> forall i | 0 <= i < |among| :: !NearestAt(r, among, i)
  {
    hide Eligible, Apart, NearestAt, Found;
    var at, n := 0, 0;
    var found, tie := false, false;
    NothingFound(r, among);
    for k := 0 to |among|
      invariant Found(r, among, k, found, at, tie)
      invariant found ==> at < k && n == Apart(r.args, among[at].args)
    {
      var d := Measure(r, among[k]);
      FoundNext(r, among, k, found, at, tie);
      if d.Some? {
        if !found || d.value < n {
          at, n, found, tie := k, d.value, true, false;
        } else if d.value == n {
          tie := true;
        }
      }
    }
    FoundAll(r, among, found, at, tie);
    if found && !tie {
      return Some(at);
    }
    return None;
  }

  lemma NothingFound(r: Row, among: seq<Row>)
    ensures Found(r, among, 0, false, 0, false)
  {
  }

  // ----- renames

  predicate UniqueIds(rows: seq<Row>) {
    forall i, j | 0 <= i < j < |rows| :: rows[i].id != rows[j].id
  }

  function Ids(rows: seq<Row>): set<string> { set r | r in rows :: r.id }

  /** The rows whose id the other side does not have. */
  ghost function Unmatched(rows: seq<Row>, others: seq<Row>): set<Row> {
    set r | r in rows && r.id !in Ids(others)
  }

  /** o is the one row of among that is nearest to r. */
  ghost predicate NearestIn(r: Row, among: set<Row>, o: Row) {
    o in among && Eligible(r, o) &&
    forall c | c in among && c != o && Eligible(r, c) :: Apart(r.args, c.args) > Apart(r.args, o.args)
  }

  /** A new row r was the old row o: each is unmatched, and each the other's nearest without a
      tie. Nothing here depends on the order of either report. */
  ghost predicate Renamed(before: seq<Row>, after: seq<Row>, r: Row, o: Row) {
    NearestIn(r, Unmatched(before, after), o) && NearestIn(o, Unmatched(after, before), r)
  }

  ghost predicate IsRenaming(before: seq<Row>, after: seq<Row>, out: map<string, Row>) {
    && (forall id | id in out :: exists r | r in after :: r.id == id && Renamed(before, after, r, out[id]))
    && (forall r, o | r in after && Renamed(before, after, r, o) :: r.id in out && out[r.id] == o)
  }

  method SelectUnmatched(rows: seq<Row>, ids: set<string>) returns (out: seq<Row>)
    ensures forall r :: r in out <==> r in rows && r.id !in ids
    ensures UniqueIds(rows) ==> UniqueIds(out)
  {
    out := [];
    for i := 0 to |rows|
      invariant forall r :: r in out <==> r in rows[..i] && r.id !in ids
      invariant UniqueIds(rows) ==> UniqueIds(out)
    {
      assert rows[..i + 1] == rows[..i] + [rows[i]];
      if rows[i].id !in ids {
        assert UniqueIds(rows) ==> forall r | r in out :: r.id != rows[i].id;
        out := out + [rows[i]];
      }
    }
    assert rows[..|rows|] == rows;
  }

  method CollectIds(rows: seq<Row>) returns (ids: set<string>)
    ensures ids == Ids(rows)
  {
    ids := {};
    for i := 0 to |rows|
      invariant ids == Ids(rows[..i])
    {
      assert rows[..i + 1] == rows[..i] + [rows[i]];
      ids := ids + {rows[i].id};
    }
    assert rows[..|rows|] == rows;
  }

  /** One round of the loop of renames: the nearest of r and the nearest of that. */
  method Partner(r: Row, olds: seq<Row>, news: seq<Row>, ghost before: seq<Row>, ghost after: seq<Row>)
    returns (partner: Option<Row>)
    requires r in news
    requires UniqueIds(before) && UniqueIds(after) ==> UniqueIds(olds) && UniqueIds(news)
    requires forall c :: c in olds <==> c in Unmatched(before, after)
    requires forall c :: c in news <==> c in Unmatched(after, before)
    ensures UniqueIds(before) && UniqueIds(after) ==>
              (partner.Some? ==> Renamed(before, after, r, partner.value)) &&
              (forall o | Renamed(before, after, r, o) :: partner == Some(o))
  {
    hide NearestIn, NearestAt, Unmatched;
    ghost var unique := UniqueIds(before) && UniqueIds(after);
    var at := Nearest(r, olds);
    if unique {
      NearestAtIsNearestIn(r, olds, Unmatched(before, after));
    }
    if at.None? {
      return None;
    }
    var o := olds[at.value];
    var back := Nearest(o, news);
    if unique {
      NearestAtIsNearestIn(o, news, Unmatched(after, before));
    }
    if back.Some? && news[back.value].id == r.id {
      if unique {
        SameRow(news, news[back.value], r);
      }
      return Some(o);
    }
    return None;
  }

  /** renames. With no id twice in one report, exactly the mutual strict nearest pairs. */
  method Renames(before: seq<Row>, after: seq<Row>) returns (out: map<string, Row>)
    ensures UniqueIds(before) && UniqueIds(after) ==> IsRenaming(before, after, out)
  {
    hide Renamed;
    var ids := CollectIds(before);
    var newIds := CollectIds(after);
    var olds := SelectUnmatched(before, newIds);
    var news := SelectUnmatched(after, ids);
    out := map[];
    ghost var unique := UniqueIds(before) && UniqueIds(after);
    for k := 0 to |news|
      invariant unique ==> forall id | id in out :: exists i | 0 <= i < k ::
                news[i].id == id && Renamed(before, after, news[i], out[id])
      invariant unique ==> forall i, o | 0 <= i < k && Renamed(before, after, news[i], o) ::
                news[i].id in out && out[news[i].id] == o
    {
      var r := news[k];
      var partner := Partner(r, olds, news, before, after);
      if partner.Some? {
        out := out[r.id := partner.value];
      }
    }
    if unique {
      forall r, o | r in after && Renamed(before, after, r, o) ensures r.id in out && out[r.id] == o {
        RenamedIsUnmatched(before, after, r, o);
        assert r in news;
      }
    }
  }

  lemma RenamedIsUnmatched(before: seq<Row>, after: seq<Row>, r: Row, o: Row)
    requires Renamed(before, after, r, o)
    ensures r in Unmatched(after, before) && o in Unmatched(before, after)
  {
  }

  /** Among rows with no id twice, the positions of nearest speak of the set of rows. */
  lemma NearestAtIsNearestIn(r: Row, among: seq<Row>, rows: set<Row>)
    requires UniqueIds(among) && forall c :: c in among <==> c in rows
    ensures forall i | 0 <= i < |among| :: NearestAt(r, among, i) <==> NearestIn(r, rows, among[i])
    ensures forall o | NearestIn(r, rows, o) :: exists i | 0 <= i < |among| :: among[i] == o && NearestAt(r, among, i)
    ensures forall o, o' | NearestIn(r, rows, o) && NearestIn(r, rows, o') :: o == o'
  {
    forall i | 0 <= i < |among| ensures NearestAt(r, among, i) <==> NearestIn(r, rows, among[i]) {
      if NearestAt(r, among, i) {
        forall c | c in rows && c != among[i] && Eligible(r, c)
          ensures Apart(r.args, c.args) > Apart(r.args, among[i].args)
        {
          var j :| 0 <= j < |among| && among[j] == c;
        }
      }
      if NearestIn(r, rows, among[i]) {
        forall j | 0 <= j < |among| && j != i && Eligible(r, among[j])
          ensures Apart(r.args, among[j].args) > Apart(r.args, among[i].args)
        {
          assert among[j] in rows;
        }
      }
    }
    forall o | NearestIn(r, rows, o) ensures exists i | 0 <= i < |among| :: among[i] == o && NearestAt(r, among, i) {
      var i :| 0 <= i < |among| && among[i] == o;
    }
  }

  /** No row stands for two. */
  lemma RenamingIsOneToOne(before: seq<Row>, after: seq<Row>, r: Row, o: Row, r': Row, o': Row)
    requires Renamed(before, after, r, o) && Renamed(before, after, r', o')
    ensures r == r' <==> o == o'
  {
  }

  /** Comparing the other way round gives the inverse. */
  lemma RenamingIsInverted(before: seq<Row>, after: seq<Row>, out: map<string, Row>, back: map<string, Row>)
    requires UniqueIds(before) && UniqueIds(after) && IsRenaming(before, after, out) && IsRenaming(after, before, back)
    ensures forall r | r in after && r.id in out :: out[r.id].id in back && back[out[r.id].id] == r
  {
    forall r | r in after && r.id in out ensures out[r.id].id in back && back[out[r.id].id] == r {
      var r' :| r' in after && r'.id == r.id && Renamed(before, after, r', out[r.id]);
      assert r' == r by {
        var i, j :| 0 <= i < |after| && after[i] == r && 0 <= j < |after| && after[j] == r';
      }
      assert Renamed(after, before, out[r.id], r);
      assert out[r.id] in before;
    }
  }

  /** Reports with the same rows in any order have the same renaming. */
  lemma RenamingIgnoresOrder(before: seq<Row>, after: seq<Row>, before': seq<Row>, after': seq<Row>,
                             out: map<string, Row>, out': map<string, Row>)
    requires UniqueIds(before) && UniqueIds(after) && UniqueIds(before') && UniqueIds(after')
    requires (forall r :: r in before <==> r in before') && (forall r :: r in after <==> r in after')
    requires IsRenaming(before, after, out) && IsRenaming(before', after', out')
    ensures out == out'
  {
    hide Renamed, Unmatched, UniqueIds, IsRenaming;
    SameUnmatched(before, after, before', after');
    SameUnmatched(after, before, after', before');
    SameRenamed(before, after, before', after');
    Included(before, after, before', after', out, out');
    Included(before', after', before, after, out', out);
  }

  lemma SameUnmatched(a: seq<Row>, b: seq<Row>, a': seq<Row>, b': seq<Row>)
    requires (forall r :: r in a <==> r in a') && (forall r :: r in b <==> r in b')
    ensures Unmatched(a, b) == Unmatched(a', b')
  {
    assert Ids(b) == Ids(b');
  }

  lemma SameRenamed(before: seq<Row>, after: seq<Row>, before': seq<Row>, after': seq<Row>)
    requires Unmatched(before, after) == Unmatched(before', after')
    requires Unmatched(after, before) == Unmatched(after', before')
    ensures forall r, o :: Renamed(before, after, r, o) <==> Renamed(before', after', r, o)
  {
    hide Unmatched, NearestIn;
  }

  lemma Included(before: seq<Row>, after: seq<Row>, before': seq<Row>, after': seq<Row>, out: map<string, Row>,
      out': map<string, Row>)
    requires forall r, o :: Renamed(before, after, r, o) <==> Renamed(before', after', r, o)
    requires forall r :: r in after <==> r in after'
    requires IsRenaming(before, after, out) && IsRenaming(before', after', out')
    ensures forall id | id in out :: id in out' && out'[id] == out[id]
  {
    forall id | id in out ensures id in out' && out'[id] == out[id] {
      var r :| r in after && r.id == id && Renamed(before, after, r, out[id]);
      assert Renamed(before', after', r, out[id]);
    }
  }

  /** Two rows can stand for each other when putting either's choices over the other's comes to the same,
      both choose on something or neither does, and without choices their arguments are the same. */
  ghost predicate Agree(a: Row, b: Row) {
    && a.features + b.features == b.features + a.features
    && (a.features == map[] <==> b.features == map[])
    && (a.features == map[] ==> multiset(a.args) == multiset(b.args))
  }

  lemma EligibleIs(r: Row, c: Row)
    ensures Eligible(r, c) <==> Agree(r, c)
  {
    var x, y := r.features + c.features, c.features + r.features;
    if x == y {
      forall k | k in r.features && k in c.features ensures r.features[k] == c.features[k] {
        assert x[k] == c.features[k] && y[k] == r.features[k];
      }
    }
    DistanceIsAMetric(r.args, c.args, c.args);
  }

  /** When a new row was an old one, in full: neither report has a row of the other's id, the two agree, and
      every other row without a namesake that agrees with one of them is strictly farther from it. */
  lemma RenamedSays(before: seq<Row>, after: seq<Row>, r: Row, o: Row)
    ensures Renamed(before, after, r, o) <==>
            && r in after && o in before && Agree(r, o)
            && (forall x | x in before :: x.id != r.id) && (forall x | x in after :: x.id != o.id)
            && (forall c | c in before && c != o && Agree(r, c) && (forall x | x in after :: x.id != c.id) ::
                  Apart(r.args, c.args) > Apart(r.args, o.args))
            && (forall c | c in after && c != r && Agree(o, c) && (forall x | x in before :: x.id != c.id) ::
                  Apart(o.args, c.args) > Apart(o.args, r.args))
  {
    hide Eligible, Apart, Agree;
    forall a: Row, b: Row ensures Eligible(a, b) <==> Agree(a, b) {
      EligibleIs(a, b);
    }
    AgreesBothWays(r, o);
    forall c ensures c in Unmatched(before, after) <==> c in before && forall x | x in after :: x.id != c.id {
      UnmatchedIs(before, after, c);
    }
    forall c ensures c in Unmatched(after, before) <==> c in after && forall x | x in before :: x.id != c.id {
      UnmatchedIs(after, before, c);
    }
    hide Unmatched;
  }

  lemma AgreesBothWays(a: Row, b: Row)
    ensures Agree(a, b) <==> Agree(b, a)
  {
  }

  lemma UnmatchedIs(rows: seq<Row>, others: seq<Row>, c: Row)
    ensures c in Unmatched(rows, others) <==> c in rows && forall x | x in others :: x.id != c.id
  {
  }

  // ----- section

  /** What a line of a section says of a row. */
  datatype Line =
    | NewRow(id: string)
    | Gone(id: string)
    | Changed(id: string, was: Option<string>, fingerprint: bool, commandLine: bool, outcome: bool, usable: bool)

  predicate AllFailed(r: Row) { r.failed == r.boots }

  /** Whether both rows got usable and the second took longer or shorter by more than threshold, as a
      part of the first one's time. */
  predicate Moved(o: Row, r: Row, threshold: real) {
    o.usable.Some? && r.usable.Some? && o.usable.value > 0.0 &&
    (var change := (r.usable.value - o.usable.value) / o.usable.value;
     (if change < 0.0 then -change else change) > threshold)
  }

  /** What changed from o to r. */
  function Change(o: Row, r: Row, was: Option<string>, threshold: real): Line {
    Changed(r.id, was, o.fingerprint != r.fingerprint, o.args != r.args, AllFailed(o) != AllFailed(r),
            Moved(o, r, threshold))
  }

  predicate Says(l: Line) {
    l.Changed? ==> l.was.Some? || l.fingerprint || l.commandLine || l.outcome || l.usable
  }

  function ById(rows: seq<Row>): map<string, Row> {
    if rows == [] then map[] else ById(rows[..|rows| - 1])[rows[|rows| - 1].id := rows[|rows| - 1]]
  }

  /** The line of a new row, by the rows of its own id and by the renaming. */
  function LineOf(r: Row, byId: map<string, Row>, renamed: map<string, Row>, threshold: real): Line {
    if r.id in byId then Change(byId[r.id], r, None, threshold)
    else if r.id in renamed then Change(renamed[r.id], r, Some(renamed[r.id].id), threshold)
    else NewRow(r.id)
  }

  function NewLines(rows: seq<Row>, byId: map<string, Row>, renamed: map<string, Row>, threshold: real): seq<Line> {
    if rows == [] then [] else
      var l := LineOf(rows[|rows| - 1], byId, renamed, threshold);
      NewLines(rows[..|rows| - 1], byId, renamed, threshold) + (if Says(l) then [l] else [])
  }

  /** The ids of either side that the new rows account for. */
  function Seen(rows: seq<Row>, byId: map<string, Row>, renamed: map<string, Row>): set<string> {
    if rows == [] then {} else
      var r := rows[|rows| - 1];
      Seen(rows[..|rows| - 1], byId, renamed) + {r.id} +
      (if r.id !in byId && r.id in renamed then {renamed[r.id].id} else {})
  }

  function GoneLines(rows: seq<Row>, seen: set<string>): seq<Line> {
    if rows == [] then [] else
      GoneLines(rows[..|rows| - 1], seen) + (if rows[|rows| - 1].id !in seen then [Gone(rows[|rows| - 1].id)] else [])
  }

  /** section, up to the text of its lines. */
  method Section(before: seq<Row>, after: seq<Row>, threshold: real, partial: bool)
    returns (lines: seq<Line>, renamed: map<string, Row>)
    ensures UniqueIds(before) && UniqueIds(after) ==> IsRenaming(before, after, renamed)
    ensures lines == NewLines(after, ById(before), renamed, threshold) +
                     (if partial then [] else GoneLines(before, Seen(after, ById(before), renamed)))
  {
    hide Moved, IsRenaming, Unmatched, ById, NewLines, Seen, GoneLines;
    NothingSaid();
    var byId: map<string, Row> := map[];
    for i := 0 to |before|
      invariant byId == ById(before[..i])
    {
      NextOld(before, i, {});
      byId := byId[before[i].id := before[i]];
    }
    assert before[..|before|] == before;
    var names := Renames(before, after);
    renamed := names;
    lines := [];
    var seen: set<string> := {};
    for i := 0 to |after|
      invariant lines == NewLines(after[..i], byId, names, threshold)
      invariant seen == Seen(after[..i], byId, names)
    {
      var r := after[i];
      NextNew(after, i, byId, names, threshold);
      seen := seen + {r.id};
      var what: Option<string> := None;
      var o := r;
      if r.id in byId {
        o := byId[r.id];
      } else {
        if r.id !in names {
          lines := lines + [NewRow(r.id)];
          continue;
        }
        o := names[r.id];
        seen := seen + {o.id};
        what := Some(o.id);
      }
      var l := Change(o, r, what, threshold);
      if Says(l) {
        lines := lines + [l];
      }
    }
    assert after[..|after|] == after;
    ghost var told := lines;
    assert told + [] == told;
    if !partial {
      for i := 0 to |before|
        invariant lines == told + GoneLines(before[..i], seen)
      {
        NextOld(before, i, seen);
        if before[i].id !in seen {
          lines := lines + [Gone(before[i].id)];
        }
      }
    }
  }

  lemma NothingSaid()
    ensures ById([]) == map[] && forall seen :: GoneLines([], seen) == []
    ensures forall byId, names, threshold :: NewLines([], byId, names, threshold) == [] && Seen([], byId, names) == {}
  {
  }

  lemma NextOld(rows: seq<Row>, i: nat, seen: set<string>)
    requires i < |rows|
    ensures ById(rows[..i + 1]) == ById(rows[..i])[rows[i].id := rows[i]]
    ensures GoneLines(rows[..i + 1], seen) ==
            GoneLines(rows[..i], seen) + if rows[i].id !in seen then [Gone(rows[i].id)] else []
  {
    assert rows[..i + 1][..i] == rows[..i];
  }

  lemma NextNew(rows: seq<Row>, i: nat, byId: map<string, Row>, renamed: map<string, Row>, threshold: real)
    requires i < |rows|
    ensures var l := LineOf(rows[i], byId, renamed, threshold);
            NewLines(rows[..i + 1], byId, renamed, threshold) ==
            NewLines(rows[..i], byId, renamed, threshold) + if Says(l) then [l] else []
    ensures Seen(rows[..i + 1], byId, renamed) ==
            Seen(rows[..i], byId, renamed) + {rows[i].id} +
            if rows[i].id !in byId && rows[i].id in renamed then {renamed[rows[i].id].id} else {}
  {
    hide LineOf, Says;
    assert rows[..i + 1][..i] == rows[..i];
  }

  // ----- every row is accounted for once

  /** What became of a new row. */
  datatype Class = SameId | WasRenamed | Alone

  ghost function ClassOfNew(before: seq<Row>, after: seq<Row>, r: Row): Class {
    if r.id in Ids(before) then SameId else if exists o :: Renamed(before, after, r, o) then WasRenamed else Alone
  }

  ghost function ClassOfOld(before: seq<Row>, after: seq<Row>, o: Row): Class {
    if o.id in Ids(after) then SameId else if exists r :: Renamed(before, after, r, o) then WasRenamed else Alone
  }

  lemma {:induction false} ByIdIs(rows: seq<Row>)
    ensures ById(rows).Keys == Ids(rows)
    ensures UniqueIds(rows) ==> forall r | r in rows :: ById(rows)[r.id] == r
  {
    if rows != [] {
      var rest, last := rows[..|rows| - 1], rows[|rows| - 1];
      ByIdIs(rest);
      assert rows == rest + [last];
      assert Ids(rows) == Ids(rest) + {last.id};
      assert UniqueIds(rows) ==> forall r | r in rest :: r.id != last.id;
    }
  }

  lemma {:induction false} SeenIs(rows: seq<Row>, byId: map<string, Row>, renamed: map<string, Row>, id: string)
    ensures id in Seen(rows, byId, renamed) <==>
            id in Ids(rows) || exists r | r in rows :: r.id !in byId && r.id in renamed && renamed[r.id].id == id
  {
    if rows != [] {
      var rest, last := rows[..|rows| - 1], rows[|rows| - 1];
      SeenIs(rest, byId, renamed, id);
      assert rows == rest + [last];
      assert Ids(rows) == Ids(rest) + {last.id};
    }
  }

  lemma {:induction false} GoneIs(rows: seq<Row>, seen: set<string>, l: Line)
    ensures l in GoneLines(rows, seen) <==> l.Gone? && l.id in Ids(rows) && l.id !in seen
  {
    if rows != [] {
      var rest, last := rows[..|rows| - 1], rows[|rows| - 1];
      GoneIs(rest, seen, l);
      assert rows == rest + [last];
      assert Ids(rows) == Ids(rest) + {last.id};
    }
  }

  lemma {:induction false} NewIs(rows: seq<Row>, byId: map<string, Row>, renamed: map<string, Row>, threshold: real,
      l: Line)
    ensures l in NewLines(rows, byId, renamed, threshold) <==>
            Says(l) && exists r | r in rows :: l == LineOf(r, byId, renamed, threshold)
  {
    hide Moved, LineOf, Says;
    if rows != [] {
      var rest, last := rows[..|rows| - 1], rows[|rows| - 1];
      NewIs(rest, byId, renamed, threshold, l);
      assert rows == rest + [last];
      assert forall r :: r in rows <==> r in rest || r == last;
    }
  }

  lemma SameRow(rows: seq<Row>, a: Row, b: Row)
    requires UniqueIds(rows) && a in rows && b in rows && a.id == b.id
    ensures a == b
  {
    var i :| 0 <= i < |rows| && rows[i] == a;
    var j :| 0 <= j < |rows| && rows[j] == b;
  }

  lemma RenamedNames(before: seq<Row>, after: seq<Row>, renamed: map<string, Row>, r: Row)
    requires UniqueIds(before) && UniqueIds(after) && IsRenaming(before, after, renamed) && r in after
    ensures r.id in renamed ==> Renamed(before, after, r, renamed[r.id])
    ensures r.id in renamed <==> exists o :: Renamed(before, after, r, o)
  {
    hide Renamed;
    if r.id in renamed {
      var r' :| r' in after && r'.id == r.id && Renamed(before, after, r', renamed[r.id]);
      SameRow(after, r, r');
    }
  }

  /** A new row is called new exactly when it is alone. */
  lemma NewRowsAreNew(before: seq<Row>, after: seq<Row>, renamed: map<string, Row>, threshold: real, r: Row)
    requires UniqueIds(before) && UniqueIds(after) && IsRenaming(before, after, renamed) && r in after
    ensures NewRow(r.id) in NewLines(after, ById(before), renamed, threshold) <==> ClassOfNew(before, after, r) == Alone
  {
    hide Renamed, NewLines, ById, IsRenaming, Moved, Ids;
    ByIdIs(before);
    RenamedNames(before, after, renamed, r);
    NewIs(after, ById(before), renamed, threshold, NewRow(r.id));
    if NewRow(r.id) in NewLines(after, ById(before), renamed, threshold) {
      var r' :| r' in after && NewRow(r.id) == LineOf(r', ById(before), renamed, threshold);
      SameRow(after, r, r');
    }
  }

  /** An old row is called gone exactly when it is alone. */
  lemma GoneRowsAreGone(before: seq<Row>, after: seq<Row>, renamed: map<string, Row>, o: Row)
    requires UniqueIds(before) && UniqueIds(after) && IsRenaming(before, after, renamed) && o in before
    ensures Gone(o.id) in GoneLines(before, Seen(after, ById(before), renamed)) <==>
              ClassOfOld(before, after, o) == Alone
  {
    hide NearestIn, GoneLines, ById, IsRenaming, Seen;
    var byId := ById(before);
    ByIdIs(before);
    SeenIs(after, byId, renamed, o.id);
    GoneIs(before, Seen(after, byId, renamed), Gone(o.id));
    if exists r :: Renamed(before, after, r, o) {
      var r :| Renamed(before, after, r, o);
      RenamedIsUnmatched(before, after, r, o);
      RenamedNames(before, after, renamed, r);
      RenamingIsOneToOne(before, after, r, o, r, renamed[r.id]);
    }
    if exists r | r in after :: r.id !in byId && r.id in renamed && renamed[r.id].id == o.id {
      var r :| r in after && r.id !in byId && r.id in renamed && renamed[r.id].id == o.id;
      RenamedNames(before, after, renamed, r);
      RenamedIsUnmatched(before, after, r, renamed[r.id]);
      SameRow(before, o, renamed[r.id]);
    }
  }

  /** No two of these lines are of one row. */
  ghost predicate OneEach(lines: seq<Line>) { forall i, j | 0 <= i < j < |lines| :: lines[i].id != lines[j].id }

  lemma {:induction false} NewLinesOnce(rows: seq<Row>, byId: map<string, Row>, renamed: map<string, Row>,
      threshold: real)
    requires UniqueIds(rows)
    ensures OneEach(NewLines(rows, byId, renamed, threshold))
    ensures forall l | l in NewLines(rows, byId, renamed, threshold) :: l.id in Ids(rows)
  {
    hide Moved, Says, Change;
    if rows != [] {
      var rest, last := rows[..|rows| - 1], rows[|rows| - 1];
      NewLinesOnce(rest, byId, renamed, threshold);
      assert rows == rest + [last];
      assert Ids(rows) == Ids(rest) + {last.id};
      LineIsOfRow(last, byId, renamed, threshold);
      assert last.id !in Ids(rest);
      assert forall l | l in NewLines(rest, byId, renamed, threshold) :: l.id != last.id;
    }
  }

  lemma LineIsOfRow(r: Row, byId: map<string, Row>, renamed: map<string, Row>, threshold: real)
    ensures LineOf(r, byId, renamed, threshold).id == r.id
  {
    hide Moved;
  }

  lemma {:induction false} GoneLinesOnce(rows: seq<Row>, seen: set<string>)
    requires UniqueIds(rows)
    ensures OneEach(GoneLines(rows, seen))
    ensures |GoneLines(rows, seen)| == |set o | o in rows && o.id !in seen|
  {
    if rows == [] {
      assert (set o | o in rows && o.id !in seen) == {};
    } else {
      var rest, last := rows[..|rows| - 1], rows[|rows| - 1];
      GoneLinesOnce(rest, seen);
      assert rows == rest + [last];
      assert last !in rest;
      GoneRowsNext(rest, last, seen);
      forall l | l in GoneLines(rest, seen) ensures l.id != last.id {
        GoneIs(rest, seen, l);
      }
    }
  }

  lemma GoneRowsNext(rest: seq<Row>, last: Row, seen: set<string>)
    requires last !in rest
    ensures |set o | o in rest + [last] && o.id !in seen| ==
            |set o | o in rest && o.id !in seen| + if last.id !in seen then 1 else 0
  {
    var before, now := set o | o in rest && o.id !in seen, set o | o in rest + [last] && o.id !in seen;
    assert now == if last.id !in seen then before + {last} else before;
  }

  lemma NewIsNotGone(before: seq<Row>, after: seq<Row>, renamed: map<string, Row>, threshold: real)
    requires UniqueIds(after)
    ensures var seen := Seen(after, ById(before), renamed);
            forall l, g | l in NewLines(after, ById(before), renamed, threshold) && g in GoneLines(before, seen) ::
              l.id != g.id
  {
    hide NewLines, ById, GoneLines, Seen;
    var seen := Seen(after, ById(before), renamed);
    NewLinesOnce(after, ById(before), renamed, threshold);
    forall l, g | l in NewLines(after, ById(before), renamed, threshold) && g in GoneLines(before, seen)
      ensures l.id != g.id
    {
      SeenIs(after, ById(before), renamed, l.id);
      GoneIs(before, seen, g);
    }
  }

  lemma OneEachConcat(a: seq<Line>, b: seq<Line>)
    requires OneEach(a) && OneEach(b) && forall l, g | l in a && g in b :: l.id != g.id
    ensures OneEach(a + b)
  {
    forall i, j | 0 <= i < j < |a + b| ensures (a + b)[i].id != (a + b)[j].id {
      if i < |a| <= j {
        assert (a + b)[i] in a && (a + b)[j] in b;
      }
    }
  }

  /** No row has two lines in a whole section, and there are as many lines of rows gone as there are old
      rows alone. */
  lemma RowsHaveOneLine(before: seq<Row>, after: seq<Row>, renamed: map<string, Row>, threshold: real)
    requires UniqueIds(before) && UniqueIds(after) && IsRenaming(before, after, renamed)
    ensures OneEach(NewLines(after, ById(before), renamed, threshold) +
                    GoneLines(before, Seen(after, ById(before), renamed)))
    ensures |GoneLines(before, Seen(after, ById(before), renamed))| == |OldOf(before, after, Alone)|
  {
    hide Renamed, NewLines, ById, IsRenaming, GoneLines, Seen, ClassOfOld;
    var seen := Seen(after, ById(before), renamed);
    NewLinesOnce(after, ById(before), renamed, threshold);
    GoneLinesOnce(before, seen);
    forall o | o in before ensures o.id !in seen <==> ClassOfOld(before, after, o) == Alone {
      GoneRowsAreGone(before, after, renamed, o);
      GoneIs(before, seen, Gone(o.id));
    }
    assert (set o | o in before && o.id !in seen) == OldOf(before, after, Alone);
    NewIsNotGone(before, after, renamed, threshold);
    OneEachConcat(NewLines(after, ById(before), renamed, threshold), GoneLines(before, seen));
  }

  /** o is the old row a new one is compared with, and was says under what other name it was found. */
  ghost predicate ComparedWith(before: seq<Row>, after: seq<Row>, r: Row, o: Row, was: Option<string>) {
    if r.id in Ids(before) then o in before && o.id == r.id && was == None
    else Renamed(before, after, r, o) && was == Some(o.id)
  }

  /** A row that carries over, by id or by renaming, has a line exactly when the comparison with its
      old one has something to say, and then that is its line. */
  lemma ChangedRowsAreSaid(before: seq<Row>, after: seq<Row>, renamed: map<string, Row>, threshold: real,
                           r: Row, o: Row, was: Option<string>)
    requires UniqueIds(before) && UniqueIds(after) && IsRenaming(before, after, renamed) && r in after
    requires ComparedWith(before, after, r, o, was)
    ensures var lines := NewLines(after, ById(before), renamed, threshold);
            && (Change(o, r, was, threshold) in lines <==> Says(Change(o, r, was, threshold)))
            && forall l | l in lines && l.id == r.id :: l == Change(o, r, was, threshold)
  {
    hide Renamed, NewLines, ById, IsRenaming, Moved, Change, Says, Ids;
    ByIdIs(before);
    RenamedNames(before, after, renamed, r);
    var byId := ById(before);
    if r.id in Ids(before) {
      assert byId[o.id] == o;
    } else {
      RenamingIsOneToOne(before, after, r, o, r, renamed[r.id]);
    }
    var line := Change(o, r, was, threshold);
    assert LineOf(r, byId, renamed, threshold) == line;
    NewIs(after, byId, renamed, threshold, line);
    if line in NewLines(after, byId, renamed, threshold) {
      assert Says(line);
    }
    forall l | l in NewLines(after, byId, renamed, threshold) && l.id == r.id ensures l == line {
      NewIs(after, byId, renamed, threshold, l);
      var r' :| r' in after && l == LineOf(r', byId, renamed, threshold);
      LineIsOfRow(r', byId, renamed, threshold);
      SameRow(after, r, r');
    }
  }

  /** Both rows got usable, the old one in some time, and the new one by more than a part of that time
      sooner or later. */
  predicate TookOtherwise(o: Row, r: Row, threshold: real) {
    o.usable.Some? && r.usable.Some? &&
    var a, b := o.usable.value, r.usable.value;
    a > 0.0 && (b - a > threshold * a || a - b > threshold * a)
  }

  lemma MovedIs(o: Row, r: Row, threshold: real)
    ensures Moved(o, r, threshold) <==> TookOtherwise(o, r, threshold)
  {
    if o.usable.Some? && r.usable.Some? && o.usable.value > 0.0 {
      var a, d := o.usable.value, r.usable.value - o.usable.value;
      Quotient(d, a, threshold);
      Quotient(-d, a, threshold);
      assert (-d) / a == -(d / a);
    }
  }

  lemma Quotient(d: real, a: real, t: real)
    requires a > 0.0
    ensures d / a > t <==> d > t * a
  {
    assert d / a * a == d;
    if d / a > t {
      assert (d / a - t) * a > 0.0;
    } else {
      assert (t - d / a) * a >= 0.0;
    }
  }

  /** What the line of a row that carries over says, and whether it has one: the fingerprint when that
      moved, the command line when that did, the boots when all of one row's failed and not all of the
      other's, and the time when it moved by more than the threshold; and a row in which nothing moved has
      a line exactly when it was renamed. */
  lemma WhatMovedIsSaid(before: seq<Row>, after: seq<Row>, renamed: map<string, Row>, threshold: real,
                        r: Row, o: Row, was: Option<string>)
    requires UniqueIds(before) && UniqueIds(after) && IsRenaming(before, after, renamed) && r in after
    requires ComparedWith(before, after, r, o, was)
    ensures forall l | l in NewLines(after, ById(before), renamed, threshold) && l.id == r.id ::
              && l.Changed? && l.was == was
              && (l.fingerprint <==> o.fingerprint != r.fingerprint) && (l.commandLine <==> o.args != r.args)
              && (l.outcome <==> (o.failed == o.boots) != (r.failed == r.boots))
              && (l.usable <==> TookOtherwise(o, r, threshold))
    ensures (exists l | l in NewLines(after, ById(before), renamed, threshold) :: l.id == r.id) <==>
            || was.Some? || o.fingerprint != r.fingerprint || o.args != r.args
            || (o.failed == o.boots) != (r.failed == r.boots) || TookOtherwise(o, r, threshold)
  {
    ChangedRowsAreSaid(before, after, renamed, threshold, r, o, was);
    MovedIs(o, r, threshold);
    hide NewLines, ById, IsRenaming, Moved, ComparedWith, UniqueIds, TookOtherwise;
    var line := Change(o, r, was, threshold);
    assert line in NewLines(after, ById(before), renamed, threshold) ==> line.id == r.id;
  }

  ghost function NewOf(before: seq<Row>, after: seq<Row>, c: Class): set<Row> {
    set r | r in after && ClassOfNew(before, after, r) == c
  }

  ghost function OldOf(before: seq<Row>, after: seq<Row>, c: Class): set<Row> {
    set o | o in before && ClassOfOld(before, after, o) == c
  }

  /** Conservation: the rows that carry over by id are as many on either side, and so are the
      renamed ones; so what one report has more of is what is new less what is gone. */
  lemma RowsAreConserved(before: seq<Row>, after: seq<Row>)
    requires UniqueIds(before) && UniqueIds(after)
    ensures |NewOf(before, after, SameId)| == |OldOf(before, after, SameId)|
    ensures |NewOf(before, after, WasRenamed)| == |OldOf(before, after, WasRenamed)|
    ensures |after| - |NewOf(before, after, Alone)| == |before| - |OldOf(before, after, Alone)|
  {
    hide Renamed;
    SameIdsMatch(before, after);
    RenamedMatch(before, after);
    RowsInClasses(before, after);
    RowsInOldClasses(before, after);
  }

  lemma RowsInClasses(before: seq<Row>, after: seq<Row>)
    requires UniqueIds(after)
    ensures |after| == |NewOf(before, after, SameId)| + |NewOf(before, after, WasRenamed)| +
              |NewOf(before, after, Alone)|
  {
    hide ClassOfNew;
    var a, b, c := NewOf(before, after, SameId), NewOf(before, after, WasRenamed), NewOf(before, after, Alone);
    AsSet(after);
    assert (set r | r in after) == a + b + c;
    assert a !! b && (a + b) !! c;
  }

  lemma RowsInOldClasses(before: seq<Row>, after: seq<Row>)
    requires UniqueIds(before)
    ensures |before| == |OldOf(before, after, SameId)| + |OldOf(before, after, WasRenamed)| +
              |OldOf(before, after, Alone)|
  {
    hide ClassOfOld;
    var a, b, c := OldOf(before, after, SameId), OldOf(before, after, WasRenamed), OldOf(before, after, Alone);
    AsSet(before);
    assert (set r | r in before) == a + b + c;
    assert a !! b && (a + b) !! c;
  }

  lemma {:induction false} AsSet(rows: seq<Row>)
    requires UniqueIds(rows)
    ensures |set r | r in rows| == |rows|
  {
    if rows != [] {
      var rest, last := rows[..|rows| - 1], rows[|rows| - 1];
      AsSet(rest);
      assert rows == rest + [last];
      assert (set r | r in rows) == (set r | r in rest) + {last};
      assert last !in rest;
    }
  }

  /** Two sets of rows related one to one have one size. */
  lemma {:induction false} OneToOne(a: set<Row>, b: set<Row>, pairs: set<(Row, Row)>)
    requires forall p | p in pairs :: p.0 in a && p.1 in b
    requires forall p, q | p in pairs && q in pairs :: p.0 == q.0 <==> p.1 == q.1
    requires forall x | x in a :: exists p :: p in pairs && p.0 == x
    requires forall y | y in b :: exists p :: p in pairs && p.1 == y
    ensures |a| == |b|
    decreases |a|
  {
    if a == {} {
      assert b == {};
    } else {
      var x :| x in a;
      var p :| p in pairs && p.0 == x;
      var a', b', pairs' := a - {x}, b - {p.1}, pairs - {p};
      forall x' | x' in a' ensures exists q :: q in pairs' && q.0 == x' {
        var q :| q in pairs && q.0 == x';
        assert q in pairs';
      }
      forall y' | y' in b' ensures exists q :: q in pairs' && q.1 == y' {
        var q :| q in pairs && q.1 == y';
        assert q in pairs';
      }
      forall q | q in pairs' ensures q.0 in a' && q.1 in b' {
        assert q.0 == p.0 <==> q.1 == p.1;
      }
      OneToOne(a', b', pairs');
    }
  }

  lemma SameIdsMatch(before: seq<Row>, after: seq<Row>)
    requires UniqueIds(before) && UniqueIds(after)
    ensures |NewOf(before, after, SameId)| == |OldOf(before, after, SameId)|
  {
    hide Renamed;
    var a, b := NewOf(before, after, SameId), OldOf(before, after, SameId);
    var pairs := set r, o | r in a && o in b && r.id == o.id :: (r, o);
    forall x | x in a ensures exists p :: p in pairs && p.0 == x {
      var o :| o in before && o.id == x.id;
      assert x.id in Ids(after);
      assert (x, o) in pairs;
    }
    forall y | y in b ensures exists p :: p in pairs && p.1 == y {
      var r :| r in after && r.id == y.id;
      assert y.id in Ids(before);
      assert (r, y) in pairs;
    }
    forall p, q | p in pairs && q in pairs ensures p.0 == q.0 <==> p.1 == q.1 {
      if p.0.id == q.0.id {
        SameRow(after, p.0, q.0);
        SameRow(before, p.1, q.1);
      }
    }
    OneToOne(a, b, pairs);
  }

  lemma RenamedMatch(before: seq<Row>, after: seq<Row>)
    ensures |NewOf(before, after, WasRenamed)| == |OldOf(before, after, WasRenamed)|
  {
    hide NearestIn;
    var a, b := NewOf(before, after, WasRenamed), OldOf(before, after, WasRenamed);
    var pairs := set r, o | r in a && o in b && Renamed(before, after, r, o) :: (r, o);
    forall x | x in a ensures exists p :: p in pairs && p.0 == x {
      var o :| Renamed(before, after, x, o);
      RenamedIsUnmatched(before, after, x, o);
      assert (x, o) in pairs;
    }
    forall y | y in b ensures exists p :: p in pairs && p.1 == y {
      var r :| Renamed(before, after, r, y);
      RenamedIsUnmatched(before, after, r, y);
      assert (r, y) in pairs;
    }
    forall p, q | p in pairs && q in pairs ensures p.0 == q.0 <==> p.1 == q.1 {
      RenamingIsOneToOne(before, after, p.0, p.1, q.0, q.1);
    }
    OneToOne(a, b, pairs);
  }
}
