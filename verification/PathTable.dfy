/** Request counters of one routed resource and its capped path table
    (agent/metrics/bucket.go), and the cut to the busiest paths that is published
    (agent/metrics/collector.go). Counters are unbounded: uint64 overflow is not part of
    the model. */
module PathTable {
  import opened Histogram

  const PATH_CAP: nat := 200
  const TOP_PATHS: nat := 20
  const OTHER_PATH := "(other)"

  datatype Request = Request(status: int, durationMs: real, responseBytes: nat, path: string, redirect: bool,
                             sampleRate: nat)

  datatype PathCounters = PathCounters(requests: nat, s5xx: nat, latency: seq<nat>)

  datatype Counters = Counters(requests: nat, redirects: nat, s2xx: nat, s3xx: nat, s4xx: nat, s5xx: nat,
                               responseBytes: nat, latency: seq<nat>, sampleRate: nat,
                               paths: map<string, PathCounters>, pathCapHit: bool)

  function NoLatency(): (l: seq<nat>)
    ensures |l| == SLOTS
  {
    seq(SLOTS, _ => 0)
  }

  const NO_HITS := PathCounters(0, 0, NoLatency())
  const FRESH := Counters(0, 0, 0, 0, 0, 0, 0, NoLatency(), 1, map[], false)

  function Bump(latency: seq<nat>, slot: nat): seq<nat> {
    if slot < |latency| then latency[slot := latency[slot] + 1] else latency
  }

  function Hit(p: PathCounters, r: Request): PathCounters {
    PathCounters(p.requests + 1, p.s5xx + (if r.status >= 500 then 1 else 0), Bump(p.latency, SlotFrom(r.durationMs, 0)))
  }

  /** The row a request is counted in: its own path while there is room, else "(other)". */
  function RowFor(c: Counters, path: string): string {
    if path in c.paths || |c.paths| < PATH_CAP then path else OTHER_PATH
  }

  /** The path row of a non-redirect request that has a path. */
  function AddPath(c: Counters, r: Request): Counters {
    var row := RowFor(c, r.path);
    c.(paths := c.paths[row := Hit(if row in c.paths then c.paths[row] else NO_HITS, r)],
       pathCapHit := c.pathCapHit || (r.path !in c.paths && |c.paths| >= PATH_CAP))
  }

  /** The resource's own totals for a non-redirect request. */
  function AddTotals(c: Counters, r: Request): Counters {
    c.(requests := c.requests + 1, responseBytes := c.responseBytes + r.responseBytes,
       s5xx := c.s5xx + (if r.status >= 500 then 1 else 0),
       s4xx := c.s4xx + (if 400 <= r.status < 500 then 1 else 0),
       s3xx := c.s3xx + (if 300 <= r.status < 400 then 1 else 0),
       s2xx := c.s2xx + (if 200 <= r.status < 300 then 1 else 0),
       latency := Bump(c.latency, SlotFrom(r.durationMs, 0)))
  }

  /** AddRequest on one resource's counters. */
  function Add(c: Counters, r: Request): Counters {
    var c1 := if r.sampleRate > c.sampleRate then c.(sampleRate := r.sampleRate) else c;
    if r.redirect then c1.(redirects := c.redirects + 1)
    else if r.path == "" then AddTotals(c1, r)
    else AddPath(AddTotals(c1, r), r)
  }

  function AddAll(rs: seq<Request>): Counters {
    if rs == [] then FRESH else Add(AddAll(rs[..|rs| - 1]), rs[|rs| - 1])
  }

  // ----------------------------------------------------------- the open bucket

  /** The request half of a bucket: counters by resource id, and the requests of each. */
  class Bucket {
    var requests: map<string, Counters>
    ghost var log: map<string, seq<Request>>

    ghost predicate Valid()
      reads this
    {
      requests.Keys == log.Keys && forall id :: id in log ==> requests[id] == AddAll(log[id])
    }

    ghost function Log(id: string): seq<Request>
      reads this
    {
      if id in log then log[id] else []
    }

    constructor ()
      ensures Valid() && requests == map[] && log == map[]
    {
      requests, log := map[], map[];
    }

    /** AddRequest: fold one access-log line in, field by field. */
    method AddRequest(id: string, r: Request)
      requires Valid()
      modifies this
      ensures Valid() && log == old(log)[id := old(Log(id)) + [r]]
      ensures requests == old(requests)[id := Add(if id in old(requests) then old(requests)[id] else FRESH, r)]
    {
      Folded(Log(id), r);
      hide Add; hide AddAll;
      var c := if id in requests then requests[id] else FRESH;
      assert c == AddAll(Log(id)) by { FreshStart(); }
      var d := Count(c, r);
      requests, log := requests[id := d], log[id := Log(id) + [r]];
    }
  }

  lemma FreshStart()
    ensures AddAll([]) == FRESH
  {
  }

  /** The counters of the resource, field by field. */
  method Count(was: Counters, r: Request) returns (c: Counters)
    ensures c == Add(was, r)
  {
    hide SlotFrom; hide AddPath; hide AddTotals;
    c := was;
    if r.sampleRate > c.sampleRate {
      c := c.(sampleRate := r.sampleRate);
    }
    if r.redirect {
      return c.(redirects := c.redirects + 1);
    }
    var slot := LatencySlot(r.durationMs);
    c := CountTotals(c, r, slot);
    if r.path != "" {
      c := CountPath(c, r, slot);
    }
  }

  lemma Folded(rs: seq<Request>, r: Request)
    ensures AddAll(rs + [r]) == Add(AddAll(rs), r)
  {
    hide Add;
    assert (rs + [r])[..|rs|] == rs;
  }

  /** The switch over the status class, and the histogram slot. */
  method CountTotals(c: Counters, r: Request, slot: nat) returns (d: Counters)
    requires slot == SlotFrom(r.durationMs, 0)
    ensures d == AddTotals(c, r)
  {
    hide SlotFrom;
    d := c.(requests := c.requests + 1, responseBytes := c.responseBytes + r.responseBytes);
    if r.status >= 500 {
      d := d.(s5xx := d.s5xx + 1);
    } else if r.status >= 400 {
      d := d.(s4xx := d.s4xx + 1);
    } else if r.status >= 300 {
      d := d.(s3xx := d.s3xx + 1);
    } else if r.status >= 200 {
      d := d.(s2xx := d.s2xx + 1);
    }
    d := d.(latency := Bump(d.latency, slot));
  }

  /** The table row: a path seen before, a new one while there is room, or "(other)". */
  method CountPath(c: Counters, r: Request, slot: nat) returns (d: Counters)
    requires slot == SlotFrom(r.durationMs, 0)
    ensures d == AddPath(c, r)
  {
    hide SlotFrom;
    var path := r.path;
    d := c;
    if path !in c.paths && |c.paths| >= PATH_CAP {
      d := d.(pathCapHit := true);
      path := OTHER_PATH;
    }
    var p := if path in c.paths then c.paths[path] else NO_HITS;
    p := p.(requests := p.requests + 1, latency := Bump(p.latency, slot));
    if r.status >= 500 {
      p := p.(s5xx := p.s5xx + 1);
    }
    d := d.(paths := c.paths[path := p]);
  }

  // -------------------------------------------------------------- conservation

  /** What is summed: requests, 5xx answers, or one latency slot. */
  datatype Measure = Hits | Failures | Slot(i: nat)

  function Of(p: PathCounters, m: Measure): nat {
    match m
    case Hits => p.requests
    case Failures => p.s5xx
    case Slot(i) => if i < |p.latency| then p.latency[i] else 0
  }

  function Weight(r: Request, m: Measure): nat {
    match m
    case Hits => 1
    case Failures => if r.status >= 500 then 1 else 0
    case Slot(i) => if SlotFrom(r.durationMs, 0) == i then 1 else 0
  }

  /** The measure over the non-redirect requests, of those with a path or of all. */
  function Expect(rs: seq<Request>, m: Measure, pathed: bool): nat {
    if rs == [] then 0
    else
      var r := rs[|rs| - 1];
      Expect(rs[..|rs| - 1], m, pathed) + if r.redirect || (pathed && r.path == "") then 0 else Weight(r, m)
  }

  datatype Row = Row(path: string, counters: PathCounters)

  function RowSum(rows: seq<Row>, m: Measure): nat {
    if rows == [] then 0 else Of(rows[0].counters, m) + RowSum(rows[1..], m)
  }

  /** The rows of a table in the given order of its keys. */
  function RowsOf(order: seq<string>, paths: map<string, PathCounters>): (rows: seq<Row>)
    requires forall k <- order :: k in paths
    ensures |rows| == |order|
    ensures forall i :: 0 <= i < |order| ==> rows[i] == Row(order[i], paths[order[i]])
  {
    if order == [] then [] else [Row(order[0], paths[order[0]])] + RowsOf(order[1..], paths)
  }

  ghost predicate Distinct(order: seq<string>) {
    forall i, j :: 0 <= i < j < |order| ==> order[i] != order[j]
  }

  /** `order` lists every key of the table once: one way a map can be ranged over. */
  ghost predicate Enumerates(order: seq<string>, paths: map<string, PathCounters>) {
    Distinct(order) && (forall k :: k in order <==> k in paths)
  }

  lemma {:induction false} RowSumConcat(a: seq<Row>, b: seq<Row>, m: Measure)
    ensures RowSum(a + b, m) == RowSum(a, m) + RowSum(b, m)
  {
    if a == [] {
      assert a + b == b;
    } else {
      assert (a + b)[1..] == a[1..] + b;
      RowSumConcat(a[1..], b, m);
    }
  }

  lemma RowSumDrop(rows: seq<Row>, i: nat, m: Measure)
    requires i < |rows|
    ensures RowSum(rows, m) == RowSum(rows[..i] + rows[i + 1..], m) + Of(rows[i].counters, m)
  {
    hide Of;
    var a, x, b := rows[..i], rows[i], rows[i + 1..];
    assert rows == a + ([x] + b);
    RowSumConcat(a, [x] + b, m);
    RowSumConcat(a, b, m);
    assert ([x] + b)[1..] == b;
  }

  /** A key's row counts once, and the rest of the table is not affected by it. */
  lemma RowSumSplit(order: seq<string>, i: nat, paths: map<string, PathCounters>, m: Measure)
    requires i < |order| && forall k <- order :: k in paths
    ensures var rest := order[..i] + order[i + 1..];
            && (forall k <- rest :: k in paths)
            && RowSum(RowsOf(order, paths), m) == RowSum(RowsOf(rest, paths), m) + Of(paths[order[i]], m)
  {
    var rest := order[..i] + order[i + 1..];
    assert forall k <- rest :: k in order;
    var rows := RowsOf(order, paths);
    RowSumDrop(rows, i, m);
    hide RowSum; hide Of;
    assert RowsOf(rest, paths) == rows[..i] + rows[i + 1..];
  }

  lemma HitWeight(p: PathCounters, r: Request, m: Measure)
    requires |p.latency| == SLOTS
    ensures Of(Hit(p, r), m) == Of(p, m) + Weight(r, m)
  {
  }

  /** Dropping a key from an enumeration enumerates the table without it. */
  lemma DropKey(order: seq<string>, i: nat)
    requires i < |order| && Distinct(order)
    ensures var rest := order[..i] + order[i + 1..];
            Distinct(rest) && order[i] !in rest && forall k :: k in rest <==> k in order && k != order[i]
  {
    var rest := order[..i] + order[i + 1..];
    forall k | k in order && k != order[i] ensures k in rest {
      var j :| 0 <= j < |order| && order[j] == k;
      assert rest[if j < i then j else j - 1] == k;
    }
  }

  lemma RowsAgree(order: seq<string>, p: map<string, PathCounters>, q: map<string, PathCounters>)
    requires forall k <- order :: k in p && k in q && p[k] == q[k]
    ensures RowsOf(order, p) == RowsOf(order, q)
  {
    var a, b := RowsOf(order, p), RowsOf(order, q);
    forall i | 0 <= i < |order| ensures a[i] == b[i] {
      assert order[i] in order;
    }
  }

  /** Changing one row of a table changes every enumeration's sum by exactly that. */
  lemma RowChanges(order: seq<string>, i: nat, paths: map<string, PathCounters>, now: PathCounters, m: Measure)
    requires i < |order| && Distinct(order)
    requires forall k <- order :: k in paths || k == order[i]
    ensures var rest := order[..i] + order[i + 1..];
            && (forall k <- rest :: k in paths) && (forall k <- order :: k in paths[order[i] := now])
            && RowSum(RowsOf(order, paths[order[i] := now]), m) == RowSum(RowsOf(rest, paths), m) + Of(now, m)
  {
    var rest, after := order[..i] + order[i + 1..], paths[order[i] := now];
    DropKey(order, i);
    assert forall k <- rest :: k in paths && k in after && after[k] == paths[k];
    hide RowSum; hide RowsOf; hide Of;
    RowSumSplit(order, i, after, m);
    RowsAgree(rest, after, paths);
  }

  /** A request goes to its row: an existing row grows by its weight, and a new row
      starts with exactly its weight. */
  lemma AddToOld(order: seq<string>, paths: map<string, PathCounters>, row: string, r: Request, m: Measure)
    requires row in paths && |paths[row].latency| == SLOTS && Enumerates(order, paths)
    ensures forall k <- order :: k in paths[row := Hit(paths[row], r)]
    ensures RowSum(RowsOf(order, paths[row := Hit(paths[row], r)]), m) == RowSum(RowsOf(order, paths), m) + Weight(r, m)
  {
    assert row in order;
    var i :| 0 <= i < |order| && order[i] == row;
    assert forall k <- order :: k in paths;
    hide RowSum; hide RowsOf; hide Of; hide Hit; hide Weight;
    RowChanges(order, i, paths, Hit(paths[row], r), m);
    RowSumSplit(order, i, paths, m);
    HitWeight(paths[row], r, m);
  }

  lemma AddToNew(order: seq<string>, paths: map<string, PathCounters>, row: string, r: Request, m: Measure)
    returns (before: seq<string>)
    requires row !in paths && Enumerates(order, paths[row := Hit(NO_HITS, r)])
    ensures Enumerates(before, paths)
    ensures RowSum(RowsOf(order, paths[row := Hit(NO_HITS, r)]), m) == RowSum(RowsOf(before, paths), m) + Weight(r, m)
  {
    hide RowSum; hide RowsOf; hide Of; hide Hit; hide Weight;
    assert row in paths[row := Hit(NO_HITS, r)];
    assert row in order;
    var i :| 0 <= i < |order| && order[i] == row;
    before := order[..i] + order[i + 1..];
    DropKey(order, i);
    RowChanges(order, i, paths, Hit(NO_HITS, r), m);
    HitWeight(NO_HITS, r, m);
    NoHits(m);
  }

  lemma NoHits(m: Measure)
    ensures Of(NO_HITS, m) == 0
  {
  }

  /** The table never exceeds the cap by more than the one "(other)" row. */
  ghost predicate Shape(c: Counters) {
    && |c.latency| == SLOTS && (forall k <- c.paths :: |c.paths[k].latency| == SLOTS)
    && (|c.paths| <= PATH_CAP || (|c.paths| == PATH_CAP + 1 && OTHER_PATH in c.paths))
  }

  lemma AddedPaths(c: Counters, r: Request)
    ensures Add(c, r).paths ==
            if r.redirect || r.path == "" then c.paths
            else var row := RowFor(c, r.path); c.paths[row := Hit(if row in c.paths then c.paths[row] else NO_HITS, r)]
    ensures |c.latency| == SLOTS ==> |Add(c, r).latency| == SLOTS
  {
    hide Hit; hide SlotFrom;
  }

  lemma HitShape(p: PathCounters, r: Request)
    ensures |Hit(p, r).latency| == |p.latency|
  {
    hide SlotFrom;
  }

  lemma AddShape(c: Counters, r: Request)
    requires Shape(c)
    ensures Shape(Add(c, r))
  {
    AddedPaths(c, r);
    hide Add; hide Hit; hide NoLatency;
    var row := RowFor(c, r.path);
    var p := if row in c.paths then c.paths[row] else NO_HITS;
    HitShape(p, r);
    var after := c.paths[row := Hit(p, r)];
    if row in c.paths {
      assert after.Keys == c.paths.Keys;
    } else {
      assert after.Keys == c.paths.Keys + {row};
    }
    assert |after| == |after.Keys| && |c.paths| == |c.paths.Keys|;
  }

  lemma {:induction false} TableShape(rs: seq<Request>)
    ensures Shape(AddAll(rs))
  {
    hide Add;
    if rs != [] {
      TableShape(rs[..|rs| - 1]);
      AddShape(AddAll(rs[..|rs| - 1]), rs[|rs| - 1]);
    }
  }

  /** One request: any enumeration of the new table gives one of the old table whose sum
      is smaller by exactly the request's weight. */
  lemma AddConserves(c: Counters, r: Request, order: seq<string>, m: Measure) returns (before: seq<string>)
    requires Shape(c) && Enumerates(order, Add(c, r).paths)
    ensures Enumerates(before, c.paths)
    ensures RowSum(RowsOf(order, Add(c, r).paths), m) ==
            RowSum(RowsOf(before, c.paths), m) + if r.redirect || r.path == "" then 0 else Weight(r, m)
  {
    AddedPaths(c, r);
    hide Add; hide Hit; hide RowSum; hide RowsOf; hide Weight; hide RowFor;
    if r.redirect || r.path == "" {
      before := order;
    } else {
      var row := RowFor(c, r.path);
      if row in c.paths {
        before := order;
        assert Add(c, r).paths.Keys == c.paths.Keys;
        assert Enumerates(before, c.paths);
        AddToOld(before, c.paths, row, r, m);
      } else {
        before := AddToNew(order, c.paths, row, r, m);
      }
    }
  }

  /** However the table is ranged over, its rows add up to the non-redirect requests
      that carried a path, for every measure. */
  lemma {:induction false} TableConserves(rs: seq<Request>, order: seq<string>, m: Measure)
    requires Enumerates(order, AddAll(rs).paths)
    ensures RowSum(RowsOf(order, AddAll(rs).paths), m) == Expect(rs, m, true)
  {
    if rs == [] {
      EmptyTable(order, m);
    } else {
      hide Add; hide Shape; hide Weight; hide RowSum; hide RowsOf;
      var init := rs[..|rs| - 1];
      TableShape(init);
      var before := AddConserves(AddAll(init), rs[|rs| - 1], order, m);
      TableConserves(init, before, m);
    }
  }

  lemma FirstIsKey(order: seq<string>, paths: map<string, PathCounters>)
    requires Enumerates(order, paths)
    ensures order != [] ==> order[0] in paths
  {
  }

  lemma EmptyTable(order: seq<string>, m: Measure)
    requires Enumerates(order, FRESH.paths)
    ensures order == [] && RowSum(RowsOf(order, FRESH.paths), m) == 0
  {
    FirstIsKey(order, FRESH.paths);
  }

  function TotalOf(c: Counters, m: Measure): nat {
    match m
    case Hits => c.requests
    case Failures => c.s5xx
    case Slot(i) => if i < |c.latency| then c.latency[i] else 0
  }

  lemma AddTotal(c: Counters, r: Request, m: Measure)
    requires |c.latency| == SLOTS
    ensures TotalOf(Add(c, r), m) == TotalOf(c, m) + if r.redirect then 0 else Weight(r, m)
  {
    hide Hit;
  }

  /** The resource's own totals count every non-redirect request, with or without path. */
  lemma {:induction false} TotalsCount(rs: seq<Request>, m: Measure)
    ensures TotalOf(AddAll(rs), m) == Expect(rs, m, false)
  {
    hide SlotFrom; hide Add; hide TotalOf; hide Weight;
    if rs == [] {
      assert TotalOf(FRESH, m) == 0 by { FreshTotals(m); }
    } else {
      var init := rs[..|rs| - 1];
      TotalsCount(init, m);
      TableShape(init);
      AddTotal(AddAll(init), rs[|rs| - 1], m);
    }
  }

  lemma FreshTotals(m: Measure)
    ensures TotalOf(FRESH, m) == 0
  {
  }

  lemma {:induction false} AllPathed(rs: seq<Request>, m: Measure)
    requires forall r <- rs :: !r.redirect ==> r.path != ""
    ensures Expect(rs, m, true) == Expect(rs, m, false)
  {
    if rs != [] {
      assert rs[|rs| - 1] in rs && forall r <- rs[..|rs| - 1] :: r in rs;
      AllPathed(rs[..|rs| - 1], m);
    }
  }

  // ------------------------------------------------------------- the published cut

  /** Each of the first `n` rows is at least as large as every row after it. */
  ghost predicate Ranked(rows: seq<Row>, n: nat) {
    forall i, j :: 0 <= i < n && i < j < |rows| ==> rows[i].counters.requests >= rows[j].counters.requests
  }

  /** The inner loop: where the largest of the rows from `i` on is. */
  method Largest(all: array<Row>, i: nat) returns (best: nat)
    requires i < all.Length
    ensures i <= best < all.Length
    ensures forall j :: i <= j < all.Length ==> all[best].counters.requests >= all[j].counters.requests
  {
    best := i;
    for j := i + 1 to all.Length
      invariant i <= best < all.Length
      invariant forall k :: i <= k < j ==> all[best].counters.requests >= all[k].counters.requests
    {
      if all[j].counters.requests > all[best].counters.requests {
        best := j;
      }
    }
  }

  /** The partial selection of topPaths, in place. */
  method SelectTop(all: array<Row>)
    modifies all
    ensures multiset(all[..]) == multiset(old(all[..]))
    ensures Ranked(all[..], if all.Length < TOP_PATHS then all.Length else TOP_PATHS)
  {
    var i := 0;
    while i < all.Length && i < TOP_PATHS
      invariant i <= all.Length && i <= TOP_PATHS
      invariant multiset(all[..]) == multiset(old(all[..]))
      invariant Ranked(all[..], i)
    {
      var best := Largest(all, i);
      ghost var was := all[..];
      all[i], all[best] := all[best], all[i];
      Swapped(was, all[..], i, best);
      i := i + 1;
    }
  }

  lemma Swapped(was: seq<Row>, now: seq<Row>, i: nat, best: nat)
    requires i <= best < |was| && now == was[i := was[best]][best := was[i]]
    requires Ranked(was, i)
    requires forall j :: i <= j < |was| ==> was[best].counters.requests >= was[j].counters.requests
    ensures multiset(now) == multiset(was) && Ranked(now, i + 1)
  {
  }

  function Plus(p: PathCounters, q: PathCounters): (r: PathCounters) {
    PathCounters(p.requests + q.requests, p.s5xx + q.s5xx,
                 seq(|p.latency|, i requires 0 <= i < |p.latency| =>
                   p.latency[i] + if i < |q.latency| then q.latency[i] else 0))
  }

  /** Adding one folded row to the "(other)" row, slot by slot. */
  method AddInto(other: PathCounters, p: PathCounters) returns (r: PathCounters)
    requires |other.latency| == SLOTS && |p.latency| == SLOTS
    ensures r == Plus(other, p)
  {
    r := other.(requests := other.requests + p.requests, s5xx := other.s5xx + p.s5xx);
    for i := 0 to |p.latency|
      invariant r == PathCounters(other.requests + p.requests, other.s5xx + p.s5xx, r.latency)
      invariant |r.latency| == SLOTS
      invariant forall k :: 0 <= k < SLOTS ==> r.latency[k] == other.latency[k] + if k < i then p.latency[k] else 0
    {
      r := r.(latency := r.latency[i := r.latency[i] + p.latency[i]]);
    }
  }

  ghost predicate FullRows(rows: seq<Row>) {
    forall i :: 0 <= i < |rows| ==> |rows[i].counters.latency| == SLOTS
  }

  /** `rows` is what may be published for a table whose rows are `all`: a ranking of them,
      or the busiest twenty and one "(other)" row holding exactly the rest. */
  ghost predicate Published(rows: seq<Row>, all: seq<Row>, folded: seq<Row>) {
    if |all| <= TOP_PATHS then folded == [] && multiset(rows) == multiset(all) && Ranked(rows, |rows|)
    else
      && |rows| == TOP_PATHS + 1
      && multiset(rows[..TOP_PATHS] + folded) == multiset(all)
      && Ranked(rows[..TOP_PATHS] + folded, TOP_PATHS)
      && rows[TOP_PATHS].path == OTHER_PATH
      && forall m :: Of(rows[TOP_PATHS].counters, m) == RowSum(folded, m)
  }

  /** topPaths: `order` is the order in which the table happened to be ranged over. */
  method TopPaths(paths: map<string, PathCounters>, order: seq<string>) returns (rows: seq<Row>)
    requires Enumerates(order, paths) && forall k <- paths :: |paths[k].latency| == SLOTS
    ensures exists folded :: Published(rows, RowsOf(order, paths), folded)
  {
    hide Of; hide RowSum; hide Published;
    var all := RowsOf(order, paths);
    assert forall i :: 0 <= i < |order| ==> order[i] in paths;
    rows := CutRows(all);
  }

  /** What topPaths does once the table is a list. */
  method CutRows(listed: seq<Row>) returns (rows: seq<Row>)
    requires FullRows(listed)
    ensures exists folded :: Published(rows, listed, folded)
  {
    hide Of; hide RowSum; hide Ranked; hide Published;
    var all := new Row[|listed|](i requires 0 <= i < |listed| => listed[i]);
    assert all[..] == listed;
    SelectTop(all);
    FullPerm(listed, all[..]);
    ghost var ranked := all[..];
    ghost var folded := [];
    if all.Length <= TOP_PATHS {
      rows := all[..];
    } else {
      folded := all[TOP_PATHS..];
      var other := FoldRows(all[TOP_PATHS..]);
      rows := all[..TOP_PATHS] + [Row(OTHER_PATH, other)];
    }
    Cut(listed, ranked, rows, folded);
  }

  lemma Cut(listed: seq<Row>, ranked: seq<Row>, rows: seq<Row>, folded: seq<Row>)
    requires multiset(listed) == multiset(ranked)
    requires Ranked(ranked, if |ranked| < TOP_PATHS then |ranked| else TOP_PATHS)
    requires |ranked| <= TOP_PATHS ==> rows == ranked && folded == []
    requires |ranked| > TOP_PATHS ==>
               && |rows| == TOP_PATHS + 1 && rows[..TOP_PATHS] == ranked[..TOP_PATHS] && folded == ranked[TOP_PATHS..]
               && rows[TOP_PATHS].path == OTHER_PATH
               && forall m :: Of(rows[TOP_PATHS].counters, m) == RowSum(folded, m)
    ensures Published(rows, listed, folded)
  {
    hide Of; hide RowSum;
    assert |multiset(listed)| == |listed| && |multiset(ranked)| == |ranked|;
    if |ranked| > TOP_PATHS {
      assert rows[..TOP_PATHS] + folded == ranked;
    }
  }

  lemma FullPerm(a: seq<Row>, b: seq<Row>)
    requires FullRows(a) && multiset(a) == multiset(b)
    ensures FullRows(b)
  {
    forall i | 0 <= i < |b| ensures |b[i].counters.latency| == SLOTS {
      assert b[i] in multiset(b);
      assert b[i] in a;
    }
  }

  method FoldRows(below: seq<Row>) returns (other: PathCounters)
    requires FullRows(below)
    ensures |other.latency| == SLOTS && forall m :: Of(other, m) == RowSum(below, m)
  {
    hide Of; hide RowSum; hide Plus; hide NoLatency;
    other := NO_HITS;
    forall m ensures Of(other, m) == RowSum(below[..0], m) { NoHits(m); NoRows(below[..0], m); }
    for i := 0 to |below|
      invariant |other.latency| == SLOTS
      invariant forall m :: Of(other, m) == RowSum(below[..i], m)
    {
      ghost var was := other;
      other := AddInto(other, below[i].counters);
      forall m ensures Of(other, m) == RowSum(below[..i + 1], m) {
        PlusOf(was, below[i].counters, m);
        assert below[..i + 1] == below[..i] + [below[i]];
        RowSumConcat(below[..i], [below[i]], m);
        OneRow(below[i], m);
      }
      PlusOf(was, below[i].counters, Hits);
    }
    assert below[..|below|] == below;
  }

  lemma NoRows(rows: seq<Row>, m: Measure)
    requires rows == []
    ensures RowSum(rows, m) == 0
  {
  }

  lemma OneRow(row: Row, m: Measure)
    ensures RowSum([row], m) == Of(row.counters, m)
  {
    assert [row][1..] == [];
  }

  lemma PlusOf(p: PathCounters, q: PathCounters, m: Measure)
    requires |p.latency| == SLOTS && |q.latency| == SLOTS
    ensures |Plus(p, q).latency| == SLOTS
    ensures Of(Plus(p, q), m) == Of(p, m) + Of(q, m)
  {
  }

  lemma DropRow(a: seq<Row>, i: nat)
    requires i < |a|
    ensures multiset(a[..i] + a[i + 1..]) == multiset(a) - multiset{a[i]}
  {
    assert a == a[..i] + ([a[i]] + a[i + 1..]);
    assert multiset(a) == multiset(a[..i]) + (multiset{a[i]} + multiset(a[i + 1..]));
  }

  lemma DropMatch(a: seq<Row>, b: seq<Row>) returns (i: nat)
    requires multiset(a) == multiset(b) && a != []
    ensures i < |b| && b[i] == a[0] && multiset(a[..0] + a[1..]) == multiset(b[..i] + b[i + 1..])
  {
    assert a[0] in multiset(b);
    i :| 0 <= i < |b| && b[i] == a[0];
    DropRow(a, 0);
    DropRow(b, i);
  }

  /** A permutation of rows has the same sums. */
  lemma {:induction false} PermSum(a: seq<Row>, b: seq<Row>, m: Measure)
    requires multiset(a) == multiset(b)
    ensures RowSum(a, m) == RowSum(b, m)
    decreases |a|
  {
    if a == [] {
      assert |b| == |multiset(b)|;
    } else {
      var i := DropMatch(a, b);
      hide RowSum; hide Of;
      RowSumDrop(a, 0, m);
      RowSumDrop(b, i, m);
      PermSum(a[..0] + a[1..], b[..i] + b[i + 1..], m);
    }
  }

  /** Whatever may be published adds up to the table, for every measure. */
  lemma CutConserves(rows: seq<Row>, all: seq<Row>, folded: seq<Row>, m: Measure)
    requires Published(rows, all, folded)
    ensures RowSum(rows, m) == RowSum(all, m)
    ensures |rows| == if |all| <= 20 then |all| else 21
  {
    hide RowSum; hide Of;
    if |all| <= TOP_PATHS {
      PermSum(rows, all, m);
      assert |multiset(rows)| == |rows| && |multiset(all)| == |all|;
    } else {
      var kept, other := rows[..TOP_PATHS], rows[TOP_PATHS];
      assert rows == kept + [other];
      RowSumConcat(kept, [other], m);
      OneRow(other, m);
      RowSumConcat(kept, folded, m);
      PermSum(kept + folded, all, m);
    }
  }

  lemma KeptAreLargest(rows: seq<Row>, all: seq<Row>, folded: seq<Row>)
    requires Published(rows, all, folded)
    ensures forall i, j :: 0 <= i < TOP_PATHS && i < |rows| && 0 <= j < |folded| ==>
              rows[i].counters.requests >= folded[j].counters.requests
  {
    hide RowSum; hide Of;
    forall i, j | 0 <= i < TOP_PATHS && i < |rows| && 0 <= j < |folded|
      ensures rows[i].counters.requests >= folded[j].counters.requests
    {
      var both := rows[..TOP_PATHS] + folded;
      assert both[i] == rows[i] && both[TOP_PATHS + j] == folded[j];
    }
  }

  /** The published rows of every request sequence: at most 21 of them, adding up, for
      requests, 5xx answers and each latency slot, to the non-redirect requests with a
      path; for a resource all of whose requests carry one, to the resource's totals.
      Every kept row is at least as large as every row folded away. */
  lemma PublishedReconciles(rs: seq<Request>, order: seq<string>, rows: seq<Row>, folded: seq<Row>, m: Measure)
    requires Enumerates(order, AddAll(rs).paths)
    requires Published(rows, RowsOf(order, AddAll(rs).paths), folded)
    ensures |AddAll(rs).paths| <= 201 && |rows| <= 21
    ensures RowSum(rows, m) == Expect(rs, m, true)
    ensures (forall r <- rs :: !r.redirect ==> r.path != "") ==> RowSum(rows, m) == TotalOf(AddAll(rs), m)
    ensures forall i, j :: 0 <= i < TOP_PATHS && i < |rows| && 0 <= j < |folded| ==>
              rows[i].counters.requests >= folded[j].counters.requests
  {
    var all := RowsOf(order, AddAll(rs).paths);
    TableShape(rs);
    TableConserves(rs, order, m);
    hide RowSum; hide Of; hide RowsOf; hide AddAll; hide TotalOf; hide Expect; hide Published; hide Enumerates;
    CutConserves(rows, all, folded, m);
    if forall r <- rs :: !r.redirect ==> r.path != "" {
      AllPathed(rs, m);
      TotalsCount(rs, m);
    }
    KeptAreLargest(rows, all, folded);
  }

  // ------------------------------------------------------- two rows labelled "(other)"

  /** The cut publishes two rows labelled "(other)" exactly when one of the kept rows is. */
  lemma TwoOtherRowsIff(rows: seq<Row>, all: seq<Row>, folded: seq<Row>)
    requires Published(rows, all, folded) && |all| > TOP_PATHS
    ensures (exists i, j :: 0 <= i < j < |rows| && rows[i].path == OTHER_PATH && rows[j].path == OTHER_PATH) <==>
            (exists i :: 0 <= i < TOP_PATHS && rows[i].path == OTHER_PATH)
  {
    hide Of; hide RowSum; hide Ranked;
    if i :| 0 <= i < TOP_PATHS && rows[i].path == OTHER_PATH {
      assert rows[i].path == OTHER_PATH && rows[TOP_PATHS].path == OTHER_PATH;
    }
  }

  /** Paths that differ in length. */
  function PathNo(i: nat): (p: string)
    ensures |p| == i + 1 && forall k :: 0 <= k < |p| ==> p[k] == 'a'
  {
    seq(i + 1, _ => 'a')
  }

  function Visit(i: nat): Request { Request(200, 1.0, 0, PathNo(i), false, 1) }

  function Crowd(n: nat): (rs: seq<Request>)
    ensures |rs| == n && forall i :: 0 <= i < n ==> rs[i] == Visit(i)
  {
    seq(n, i requires 0 <= i => Visit(i))
  }

  /** A table of `n` rows of one request each. */
  ghost predicate Even(paths: map<string, PathCounters>, n: nat) {
    && |paths| == n
    && (forall i: nat :: PathNo(i) in paths <==> i < n)
    && (forall p <- paths :: paths[p].requests == 1 && p != OTHER_PATH)
  }

  lemma PathsDiffer(i: nat, j: nat)
    ensures PathNo(i) == PathNo(j) ==> i == j
    ensures PathNo(i) != OTHER_PATH && PathNo(i) != ""
  {
    assert OTHER_PATH[0] == '(';
  }

  lemma HitCounts(p: PathCounters, r: Request)
    ensures Hit(p, r).requests == p.requests + 1
  {
    hide SlotFrom;
  }

  lemma {:induction false} CrowdTable(n: nat)
    requires n <= PATH_CAP
    ensures Even(AddAll(Crowd(n)).paths, n)
  {
    hide Add; hide Hit; hide Even; hide PathNo;
    if n == 0 {
      NoVisits();
    } else {
      CrowdTable(n - 1);
      assert Crowd(n)[..n - 1] == Crowd(n - 1);
      CrowdGrows(AddAll(Crowd(n - 1)), n - 1);
    }
  }

  lemma NoVisits()
    ensures Even(AddAll(Crowd(0)).paths, 0)
  {
    assert Crowd(0) == [];
  }

  lemma CrowdGrows(c: Counters, n: nat)
    requires Even(c.paths, n) && n < PATH_CAP
    ensures Even(Add(c, Visit(n)).paths, n + 1)
  {
    AddedPaths(c, Visit(n));
    HitCounts(NO_HITS, Visit(n));
    PathsDiffer(n, n);
    hide Add; hide Hit; hide PathNo; hide NoLatency;
    var after := c.paths[PathNo(n) := Hit(NO_HITS, Visit(n))];
    assert PathNo(n) !in c.paths && Add(c, Visit(n)).paths == after;
    assert after.Keys == c.paths.Keys + {PathNo(n)};
    forall i: nat ensures PathNo(i) in after <==> i < n + 1 {
      PathsDiffer(i, n);
    }
  }

  /** The table is full and one more path comes: it is counted under "(other)". */
  lemma Overflows(c: Counters, i: nat)
    requires |c.paths| >= PATH_CAP && PathNo(i) !in c.paths
    ensures var p := if OTHER_PATH in c.paths then c.paths[OTHER_PATH] else NO_HITS;
            Add(c, Visit(i)).paths == c.paths[OTHER_PATH := Hit(p, Visit(i))]
    ensures Add(c, Visit(i)).paths[OTHER_PATH].requests ==
            1 + if OTHER_PATH in c.paths then c.paths[OTHER_PATH].requests else 0
  {
    AddedPaths(c, Visit(i));
    PathsDiffer(i, i);
    HitCounts(if OTHER_PATH in c.paths then c.paths[OTHER_PATH] else NO_HITS, Visit(i));
    hide Add; hide Hit; hide PathNo; hide NoLatency;
  }

  function Rush(): seq<Request> { Crowd(PATH_CAP) + [Visit(PATH_CAP)] + [Visit(PATH_CAP + 1)] }

  /** 202 paths once each: 200 rows of one request, and "(other)" with two. */
  lemma RushTable()
    ensures var paths := AddAll(Rush()).paths;
            && |paths| == PATH_CAP + 1 && OTHER_PATH in paths && paths[OTHER_PATH].requests == 2
            && forall p <- paths :: p != OTHER_PATH ==> paths[p].requests == 1
  {
    hide Add; hide Hit; hide PathNo; hide AddAll;
    var rs := Crowd(PATH_CAP);
    var one, two := rs + [Visit(PATH_CAP)], Rush();
    CrowdTable(PATH_CAP);
    Snoc(rs, Visit(PATH_CAP));
    Snoc(one, Visit(PATH_CAP + 1));
    var c := AddAll(rs);
    Overflows(c, PATH_CAP);
    var d := AddAll(one);
    assert d.paths.Keys == c.paths.Keys + {OTHER_PATH};
    PathsDiffer(PATH_CAP + 1, PATH_CAP);
    assert PathNo(PATH_CAP + 1) !in c.paths;
    Overflows(d, PATH_CAP + 1);
    assert AddAll(two).paths.Keys == d.paths.Keys;
    assert |d.paths| == |d.paths.Keys| && |AddAll(two).paths| == |AddAll(two).paths.Keys|;
  }

  lemma Snoc(rs: seq<Request>, r: Request)
    ensures AddAll(rs + [r]) == Add(AddAll(rs), r)
  {
    assert (rs + [r])[..|rs|] == rs;
  }

  /** Whatever is published after such a rush has two rows labelled "(other)". */
  lemma RushPublishesTwoOthers(order: seq<string>, rows: seq<Row>, folded: seq<Row>)
    requires Enumerates(order, AddAll(Rush()).paths)
    requires Published(rows, RowsOf(order, AddAll(Rush()).paths), folded)
    ensures exists i, j :: 0 <= i < j < |rows| && rows[i].path == OTHER_PATH && rows[j].path == OTHER_PATH
  {
    hide AddAll; hide Rush;
    RushTable();
    var paths := AddAll(Rush()).paths;
    var all := RowsOf(order, paths);
    LongOrder(order, paths);
    LargestKept(paths, order, rows, folded);
    TwoOtherRowsIff(rows, all, folded);
  }

  lemma LongOrder(order: seq<string>, paths: map<string, PathCounters>)
    requires Enumerates(order, paths)
    ensures |order| == |paths|
  {
    SetOf(order);
    assert KeysOf(order) == paths.Keys;
  }

  function KeysOf(order: seq<string>): set<string> { set k | k in order }

  lemma {:induction false} SetOf(order: seq<string>)
    requires Distinct(order)
    ensures |KeysOf(order)| == |order|
  {
    if order != [] {
      var n := |order| - 1;
      SetOf(order[..n]);
      assert KeysOf(order) == KeysOf(order[..n]) + {order[n]};
    }
  }

  /** The kept rows and the folded ones are the rows of the table. */
  lemma KeptOrFolded(rows: seq<Row>, all: seq<Row>, folded: seq<Row>, row: Row)
    requires Published(rows, all, folded) && |all| > TOP_PATHS
    ensures row in all <==> row in rows[..TOP_PATHS] || row in folded
  {
    hide Of; hide RowSum; hide Ranked;
    var both := rows[..TOP_PATHS] + folded;
    assert row in both <==> row in multiset(both);
    assert row in all <==> row in multiset(all);
  }

  lemma RowOfTable(order: seq<string>, paths: map<string, PathCounters>, row: Row)
    requires Enumerates(order, paths)
    ensures row in RowsOf(order, paths) <==> row.path in paths && row.counters == paths[row.path]
  {
    var all := RowsOf(order, paths);
    if row.path in paths && row.counters == paths[row.path] {
      assert row.path in order;
      var k :| 0 <= k < |order| && order[k] == row.path;
      assert all[k] == row;
    }
    if row in all {
      var k :| 0 <= k < |all| && all[k] == row;
      assert order[k] in order;
    }
  }

  /** A row larger than every other is kept. */
  lemma LargestKept(paths: map<string, PathCounters>, order: seq<string>, rows: seq<Row>, folded: seq<Row>)
    requires Enumerates(order, paths) && |order| > TOP_PATHS && Published(rows, RowsOf(order, paths), folded)
    requires OTHER_PATH in paths && forall p <- paths :: p != OTHER_PATH ==> paths[p].requests < paths[OTHER_PATH].requests
    ensures exists i :: 0 <= i < TOP_PATHS && rows[i].path == OTHER_PATH
  {
    var all := RowsOf(order, paths);
    KeptAreLargest(rows, all, folded);
    var largest, top := Row(OTHER_PATH, paths[OTHER_PATH]), rows[0];
    KeptOrFolded(rows, all, folded, largest);
    KeptOrFolded(rows, all, folded, top);
    assert |rows| == TOP_PATHS + 1;
    hide Published; hide RowsOf; hide Enumerates;
    RowOfTable(order, paths, largest);
    RowOfTable(order, paths, top);
    assert rows[..TOP_PATHS][0] == top;
    if largest in folded {
      var j :| 0 <= j < |folded| && folded[j] == largest;
      assert rows[0].counters.requests >= folded[j].counters.requests;
    } else {
      var i :| 0 <= i < |rows[..TOP_PATHS]| && rows[..TOP_PATHS][i] == largest;
      assert rows[i] == largest;
    }
  }
}
