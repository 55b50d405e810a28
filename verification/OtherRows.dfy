/** When the published path rows hold two rows labelled "(other)", as a condition on the table
    of agent/metrics/bucket.go. The order in which the table is ranged over is not fixed, so
    ties at the cut can fall either way. */
module OtherRows {
  import opened Histogram
  import opened PathTable

  type Table = map<string, PathCounters>

  /** `rows` may be published for the table. */
  ghost predicate Publishable(paths: Table, rows: seq<Row>) {
    exists order, folded :: Enumerates(order, paths) && Published(rows, RowsOf(order, paths), folded)
  }

  ghost predicate TwoOthers(rows: seq<Row>) {
    exists i, j :: 0 <= i < j < |rows| && rows[i].path == OTHER_PATH && rows[j].path == OTHER_PATH
  }

  /** The other rows that have at least as many requests, and those that have more. */
  function AtLeast(paths: Table): set<string>
    requires OTHER_PATH in paths
  {
    set p | p in paths && p != OTHER_PATH && paths[p].requests >= paths[OTHER_PATH].requests
  }

  function More(paths: Table): set<string>
    requires OTHER_PATH in paths
  {
    set p | p in paths && p != OTHER_PATH && paths[p].requests > paths[OTHER_PATH].requests
  }

  // ------------------------------------------------------------------- a ranked order

  /** Requests first; among equals the "(other)" row comes first or last. */
  function Rank(paths: Table, otherFirst: bool, p: string): int
    requires p in paths
  {
    2 * paths[p].requests + if (p == OTHER_PATH) == otherFirst then 1 else 0
  }

  ghost predicate Descending(paths: Table, otherFirst: bool, order: seq<string>) {
    && (forall i :: 0 <= i < |order| ==> order[i] in paths)
    && (forall i, j :: 0 <= i < j < |order| ==> Rank(paths, otherFirst, order[i]) >= Rank(paths, otherFirst, order[j]))
  }

  lemma {:induction false} Largest0(paths: Table, otherFirst: bool, keys: set<string>) returns (p: string)
    requires keys != {} && keys <= paths.Keys
    ensures p in keys && forall q <- keys :: Rank(paths, otherFirst, q) <= Rank(paths, otherFirst, p)
  {
    p :| p in keys;
    if keys != {p} {
      var q := Largest0(paths, otherFirst, keys - {p});
      if Rank(paths, otherFirst, q) > Rank(paths, otherFirst, p) {
        p := q;
      }
    }
  }

  lemma {:induction false} SortKeys(paths: Table, otherFirst: bool, keys: set<string>) returns (order: seq<string>)
    requires keys <= paths.Keys
    ensures KeysOf(order) == keys && Distinct(order) && Descending(paths, otherFirst, order)
    decreases keys
  {
    if keys == {} {
      order := [];
    } else {
      var p := Largest0(paths, otherFirst, keys);
      var rest := SortKeys(paths, otherFirst, keys - {p});
      order := [p] + rest;
      assert forall k :: k in rest <==> k in KeysOf(rest);
      forall i, j | 0 <= i < j < |order|
        ensures order[i] != order[j] && Rank(paths, otherFirst, order[i]) >= Rank(paths, otherFirst, order[j])
      {
        assert order[j] == rest[j - 1] && rest[j - 1] in rest;
        if i > 0 {
          assert order[i] == rest[i - 1];
        }
      }
    }
  }

  /** The place of the "(other)" row in a ranked order. */
  lemma OtherPlace(paths: Table, otherFirst: bool, order: seq<string>) returns (i: nat)
    requires OTHER_PATH in paths && KeysOf(order) == paths.Keys && Distinct(order) && Descending(paths, otherFirst, order)
    ensures i < |order| && order[i] == OTHER_PATH && i == if otherFirst then |More(paths)| else |AtLeast(paths)|
  {
    assert OTHER_PATH in KeysOf(order);
    i :| 0 <= i < |order| && order[i] == OTHER_PATH;
    var want := if otherFirst then More(paths) else AtLeast(paths);
    hide AtLeast; hide More;
    SetOf(order[..i]);
    forall p ensures p in KeysOf(order[..i]) <==> p in want {
      if p in KeysOf(order[..i]) {
        BeforeOther(paths, otherFirst, order, i, p);
      }
      if p in want {
        AboveOther(paths, otherFirst, order, i, p);
      }
    }
    assert KeysOf(order[..i]) == want;
  }

  lemma BeforeOther(paths: Table, otherFirst: bool, order: seq<string>, i: nat, p: string)
    requires i < |order| && order[i] == OTHER_PATH && OTHER_PATH in paths && Distinct(order)
    requires Descending(paths, otherFirst, order) && p in KeysOf(order[..i])
    ensures p in if otherFirst then More(paths) else AtLeast(paths)
  {
    assert p in order[..i];
    var j :| 0 <= j < i && order[..i][j] == p;
    assert order[j] == p;
    assert Rank(paths, otherFirst, order[j]) >= Rank(paths, otherFirst, order[i]);
  }

  lemma AboveOther(paths: Table, otherFirst: bool, order: seq<string>, i: nat, p: string)
    requires i < |order| && order[i] == OTHER_PATH && OTHER_PATH in paths && KeysOf(order) == paths.Keys
    requires Descending(paths, otherFirst, order) && p in if otherFirst then More(paths) else AtLeast(paths)
    ensures p in KeysOf(order[..i])
  {
    assert p in KeysOf(order);
    var j :| 0 <= j < |order| && order[j] == p;
    assert j > i ==> Rank(paths, otherFirst, order[i]) >= Rank(paths, otherFirst, order[j]);
    assert j < i;
    assert order[..i][j] == p;
  }

  // ---------------------------------------------------------------- publishing an order

  /** One row that adds up to the given ones. */
  function SumOf(rows: seq<Row>): PathCounters {
    PathCounters(RowSum(rows, Hits), RowSum(rows, Failures), seq(SLOTS, i requires 0 <= i => RowSum(rows, Slot(i))))
  }

  lemma {:induction false} PastSlots(rows: seq<Row>, i: nat)
    requires FullRows(rows) && i >= SLOTS
    ensures RowSum(rows, Slot(i)) == 0
  {
    if rows != [] {
      PastSlots(rows[1..], i);
    }
  }

  lemma SumOfIs(rows: seq<Row>, m: Measure)
    requires FullRows(rows)
    ensures Of(SumOf(rows), m) == RowSum(rows, m)
  {
    if m.Slot? && m.i >= SLOTS {
      PastSlots(rows, m.i);
    }
    hide RowSum;
  }

  lemma PublishOrder(paths: Table, otherFirst: bool, order: seq<string>) returns (rows: seq<Row>)
    requires Enumerates(order, paths) && Descending(paths, otherFirst, order) && |order| > TOP_PATHS
    requires forall p <- paths :: |paths[p].latency| == SLOTS
    ensures Publishable(paths, rows) && |rows| == TOP_PATHS + 1
    ensures forall i :: 0 <= i < TOP_PATHS ==> rows[i].path == order[i]
    ensures Published(rows, RowsOf(order, paths), RowsOf(order, paths)[TOP_PATHS..])
  {
    RankedOrder(paths, otherFirst, order);
    var all := RowsOf(order, paths);
    assert FullRows(all) by { assert forall i :: 0 <= i < |order| ==> order[i] in order; }
    hide Of; hide RowSum; hide SumOf; hide Ranked; hide Descending; hide Enumerates;
    var kept, folded := all[..TOP_PATHS], all[TOP_PATHS..];
    assert kept + folded == all;
    assert FullRows(folded);
    rows := kept + [Row(OTHER_PATH, SumOf(folded))];
    assert rows[..TOP_PATHS] == kept;
    forall m ensures Of(rows[TOP_PATHS].counters, m) == RowSum(folded, m) {
      SumOfIs(folded, m);
    }
    assert Published(rows, all, folded);
  }

  lemma RankedOrder(paths: Table, otherFirst: bool, order: seq<string>)
    requires Enumerates(order, paths) && Descending(paths, otherFirst, order)
    ensures Ranked(RowsOf(order, paths), TOP_PATHS)
  {
    var all := RowsOf(order, paths);
    forall i, j | 0 <= i < TOP_PATHS && i < j < |all| ensures all[i].counters.requests >= all[j].counters.requests {
      assert Rank(paths, otherFirst, order[i]) >= Rank(paths, otherFirst, order[j]);
    }
  }

  lemma SomeCut(paths: Table, otherFirst: bool) returns (rows: seq<Row>)
    requires OTHER_PATH in paths && |paths| > TOP_PATHS && forall p <- paths :: |paths[p].latency| == SLOTS
    ensures Publishable(paths, rows)
    ensures TwoOthers(rows) <==> (if otherFirst then |More(paths)| else |AtLeast(paths)|) < TOP_PATHS
  {
    var order := SortKeys(paths, otherFirst, paths.Keys);
    SetOf(order);
    assert forall k :: k in order <==> k in KeysOf(order);
    assert Enumerates(order, paths);
    var place := OtherPlace(paths, otherFirst, order);
    rows := PublishOrder(paths, otherFirst, order);
    TwoOtherRowsIff(rows, RowsOf(order, paths), RowsOf(order, paths)[TOP_PATHS..]);
    hide Published; hide Descending; hide AtLeast; hide More; hide Publishable;
    forall i | 0 <= i < TOP_PATHS ensures rows[i].path == OTHER_PATH <==> i == place {
      SamePlace(order, i, place);
    }
  }

  lemma SamePlace(order: seq<string>, i: nat, j: nat)
    requires Distinct(order) && i < |order| && j < |order|
    ensures order[i] == order[j] <==> i == j
  {
  }

  // ----------------------------------------------------------------------- every cut

  lemma {:induction false} SetAtMost(order: seq<string>)
    ensures |KeysOf(order)| <= |order|
  {
    if order != [] {
      var n := |order| - 1;
      SetAtMost(order[..n]);
      assert KeysOf(order) == KeysOf(order[..n]) + {order[n]};
    }
  }

  function PathsOf(rows: seq<Row>): (ps: seq<string>)
    ensures |ps| == |rows| && forall i :: 0 <= i < |rows| ==> ps[i] == rows[i].path
  {
    seq(|rows|, i requires 0 <= i < |rows| => rows[i].path)
  }

  lemma SplitCount(a: seq<Row>, i: nat, x: Row)
    requires i < |a|
    ensures multiset(a)[x] == multiset(a[..i])[x] + multiset(a[i + 1..])[x] + if a[i] == x then 1 else 0
  {
    assert a == a[..i] + ([a[i]] + a[i + 1..]);
  }

  /** A permutation of rows with distinct paths has distinct paths. */
  lemma PermDistinct(a: seq<Row>, b: seq<Row>)
    requires multiset(a) == multiset(b) && Distinct(PathsOf(b))
    requires forall r, q :: r in b && q in b && r.path == q.path ==> r == q
    ensures Distinct(PathsOf(a))
  {
    forall i, j | 0 <= i < j < |a| ensures a[i].path != a[j].path {
      if a[i].path == a[j].path {
        assert a[i] in multiset(b) && a[j] in multiset(b);
        assert a[i] in b && a[j] in b;
        TwoCounts(a, i, j);
        OneCount(b, a[i]);
      }
    }
  }

  lemma TwoCounts(a: seq<Row>, i: nat, j: nat)
    requires i < j < |a| && a[i] == a[j]
    ensures multiset(a)[a[i]] >= 2
  {
    SplitCount(a, j, a[i]);
    assert a[..j][i] == a[i];
    assert a[i] in multiset(a[..j]);
  }

  lemma OneCount(b: seq<Row>, x: Row)
    requires Distinct(PathsOf(b))
    ensures multiset(b)[x] <= 1
  {
    if x in b {
      var i :| 0 <= i < |b| && b[i] == x;
      SplitCount(b, i, x);
      forall k | 0 <= k < |b| && k != i ensures b[k] != x {
        assert PathsOf(b)[k] != PathsOf(b)[i];
      }
      assert x !in b[..i] && x !in b[i + 1..];
    } else {
      assert x !in multiset(b);
    }
  }

  /** The kept rows and the folded ones, as rows of the table with distinct paths. */
  lemma CutRowsDistinct(paths: Table, order: seq<string>, rows: seq<Row>, folded: seq<Row>)
    requires Enumerates(order, paths) && |order| > TOP_PATHS && Published(rows, RowsOf(order, paths), folded)
    ensures var both := rows[..TOP_PATHS] + folded;
            && Distinct(PathsOf(both))
            && (forall i :: 0 <= i < |both| ==> both[i].path in paths && both[i].counters == paths[both[i].path])
            && (forall p <- paths :: exists i :: 0 <= i < |both| && both[i].path == p)
            && Ranked(both, TOP_PATHS)
  {
    var all, both := RowsOf(order, paths), rows[..TOP_PATHS] + folded;
    assert multiset(both) == multiset(all) && Ranked(both, TOP_PATHS);
    hide Published; hide Ranked;
    TableDistinct(order, paths);
    forall r: Row ensures r in both <==> r.path in paths && r.counters == paths[r.path] {
      RowOfTable(order, paths, r);
      assert r in both <==> r in multiset(both);
      assert r in all <==> r in multiset(all);
    }
    hide Enumerates; hide RowsOf;
    PermDistinct(both, all);
    CoversTable(paths, both);
  }

  lemma CoversTable(paths: Table, both: seq<Row>)
    requires forall r: Row :: r in both <==> r.path in paths && r.counters == paths[r.path]
    ensures forall i :: 0 <= i < |both| ==> both[i].path in paths && both[i].counters == paths[both[i].path]
    ensures forall p <- paths :: exists i :: 0 <= i < |both| && both[i].path == p
  {
    forall p | p in paths ensures exists i :: 0 <= i < |both| && both[i].path == p {
      assert Row(p, paths[p]) in both;
    }
  }

  lemma TableDistinct(order: seq<string>, paths: Table)
    requires Enumerates(order, paths)
    ensures var all := RowsOf(order, paths);
            Distinct(PathsOf(all)) && forall r, q :: r in all && q in all && r.path == q.path ==> r == q
  {
    var all := RowsOf(order, paths);
    forall i, j | 0 <= i < j < |all| ensures PathsOf(all)[i] != PathsOf(all)[j] {
      assert order[i] != order[j];
    }
    forall r, q | r in all && q in all && r.path == q.path ensures r == q {
      RowOfTable(order, paths, r);
      RowOfTable(order, paths, q);
    }
  }

  lemma FewAtLeast(paths: Table, order: seq<string>, rows: seq<Row>, folded: seq<Row>)
    requires OTHER_PATH in paths && |AtLeast(paths)| < TOP_PATHS
    requires Enumerates(order, paths) && |order| > TOP_PATHS && Published(rows, RowsOf(order, paths), folded)
    ensures exists i :: 0 <= i < TOP_PATHS && rows[i].path == OTHER_PATH
  {
    CutRowsDistinct(paths, order, rows, folded);
    var both := rows[..TOP_PATHS] + folded;
    assert |rows| == TOP_PATHS + 1;
    hide Published; hide RowsOf; hide Enumerates;
    var k :| 0 <= k < |both| && both[k].path == OTHER_PATH;
    if k < TOP_PATHS {
      assert rows[k].path == OTHER_PATH;
    } else {
      var kept := PathsOf(both)[..TOP_PATHS];
      forall p | p in KeysOf(kept) ensures p in AtLeast(paths) {
        var i :| 0 <= i < |kept| && kept[i] == p;
        assert both[i].counters.requests >= both[k].counters.requests && PathsOf(both)[i] != PathsOf(both)[k];
      }
      assert Distinct(kept);
      SetOf(kept);
      SubsetSize(KeysOf(kept), AtLeast(paths));
    }
  }

  lemma {:induction false} SubsetSize(a: set<string>, b: set<string>)
    requires a <= b
    ensures |a| <= |b|
  {
    if a != {} {
      var x :| x in a;
      SubsetSize(a - {x}, b - {x});
    }
  }

  lemma KeptFewMore(paths: Table, order: seq<string>, rows: seq<Row>, folded: seq<Row>, i: nat)
    requires OTHER_PATH in paths && Enumerates(order, paths) && |order| > TOP_PATHS
    requires Published(rows, RowsOf(order, paths), folded) && i < TOP_PATHS && rows[i].path == OTHER_PATH
    ensures |More(paths)| < TOP_PATHS
  {
    CutRowsDistinct(paths, order, rows, folded);
    var both := rows[..TOP_PATHS] + folded;
    assert both[i] == rows[i];
    hide Published; hide RowsOf; hide Enumerates;
    hide Ranked;
    var before := PathsOf(both)[..i];
    forall p | p in More(paths) ensures p in KeysOf(before) {
      MoreBefore(paths, both, i, p);
    }
    SetAtMost(before);
    SubsetSize(More(paths), KeysOf(before));
  }

  lemma LargerComesFirst(both: seq<Row>, i: nat, m: nat)
    requires Ranked(both, TOP_PATHS) && i < TOP_PATHS && i < |both| && m < |both|
    requires both[m].counters.requests > both[i].counters.requests
    ensures m < i
  {
  }

  lemma MoreBefore(paths: Table, both: seq<Row>, i: nat, p: string)
    requires OTHER_PATH in paths && Ranked(both, TOP_PATHS) && i < TOP_PATHS && i < |both| && both[i].path == OTHER_PATH
    requires forall k :: 0 <= k < |both| ==> both[k].path in paths && both[k].counters == paths[both[k].path]
    requires p in More(paths) && exists k :: 0 <= k < |both| && both[k].path == p
    ensures p in KeysOf(PathsOf(both)[..i])
  {
    var m :| 0 <= m < |both| && both[m].path == p;
    LargerComesFirst(both, i, m);
    assert PathsOf(both)[..i][m] == p;
  }

  /** For every table that is cut and holds an "(other)" row of its own: every publishable
      cut has two rows labelled so exactly when fewer than twenty other rows have at least as
      many requests, and some cut has exactly when fewer than twenty have more. */
  lemma TwoOthersIff(paths: Table)
    requires OTHER_PATH in paths && |paths| > TOP_PATHS && forall p <- paths :: |paths[p].latency| == SLOTS
    ensures (forall rows :: Publishable(paths, rows) ==> TwoOthers(rows)) <==> |AtLeast(paths)| < TOP_PATHS
    ensures (exists rows :: Publishable(paths, rows) && TwoOthers(rows)) <==> |More(paths)| < TOP_PATHS
  {
    var last := SomeCut(paths, false);
    var first := SomeCut(paths, true);
    forall rows | Publishable(paths, rows)
      ensures (|AtLeast(paths)| < TOP_PATHS ==> TwoOthers(rows)) && (TwoOthers(rows) ==> |More(paths)| < TOP_PATHS)
    {
      AnyCut(paths, rows);
    }
    hide Publishable; hide TwoOthers; hide AtLeast; hide More;
  }

  lemma AnyCut(paths: Table, rows: seq<Row>)
    requires OTHER_PATH in paths && |paths| > TOP_PATHS && Publishable(paths, rows)
    ensures |AtLeast(paths)| < TOP_PATHS ==> TwoOthers(rows)
    ensures TwoOthers(rows) ==> |More(paths)| < TOP_PATHS
  {
    var order, folded :| Enumerates(order, paths) && Published(rows, RowsOf(order, paths), folded);
    LongOrder(order, paths);
    TwoOtherRowsIff(rows, RowsOf(order, paths), folded);
    hide Published; hide Enumerates; hide RowsOf;
    if |AtLeast(paths)| < TOP_PATHS {
      FewAtLeast(paths, order, rows, folded);
    }
    if TwoOthers(rows) {
      var i :| 0 <= i < TOP_PATHS && rows[i].path == OTHER_PATH;
      KeptFewMore(paths, order, rows, folded, i);
    }
  }
}
