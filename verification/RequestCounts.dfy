/** What the counters of a routed resource mean, counted on the requests themselves
    (agent/metrics/bucket.go): how many of each status class, how many bytes, which paths
    have a row of their own, and what each row holds. */
module RequestCounts {
  import opened Histogram
  import opened PathTable

  /** The places of the requests that satisfy f. */
  ghost function Where(rs: seq<Request>, f: Request -> bool): set<int> {
    set i | 0 <= i < |rs| && f(rs[i])
  }

  lemma WhereGrows(rs: seq<Request>, f: Request -> bool)
    requires rs != []
    ensures |Where(rs, f)| == |Where(rs[..|rs| - 1], f)| + if f(rs[|rs| - 1]) then 1 else 0
  {
    var init, n := rs[..|rs| - 1], |rs| - 1;
    assert n !in Where(init, f);
    assert Where(rs, f) == Where(init, f) + if f(rs[n]) then {n} else {};
  }

  lemma WhereSame(rs: seq<Request>, f: Request -> bool, g: Request -> bool)
    requires forall i :: 0 <= i < |rs| ==> f(rs[i]) == g(rs[i])
    ensures Where(rs, f) == Where(rs, g)
  {
  }

  // -------------------------------------------------------------------------- totals

  predicate Served(r: Request) { !r.redirect }
  predicate Redirected(r: Request) { r.redirect }
  predicate Success(r: Request) { !r.redirect && 200 <= r.status < 300 }
  predicate Moved(r: Request) { !r.redirect && 300 <= r.status < 400 }
  predicate ClientError(r: Request) { !r.redirect && 400 <= r.status < 500 }
  predicate ServerError(r: Request) { !r.redirect && 500 <= r.status }

  /** The duration is above the slot's lower bound and not above its upper one. */
  predicate Between(ms: real, i: nat) {
    i <= LAST + 1 && (i <= LAST ==> ms <= Bound(i)) && (i > 0 ==> ms > Bound(i - 1))
  }

  lemma BetweenIff(ms: real, i: nat)
    ensures Between(ms, i) <==> SlotFrom(ms, 0) == i
  {
    var slot := SlotFrom(ms, 0);
    hide SlotFrom;
    if Between(ms, i) {
      if slot < i {
        BoundsIncrease(slot, i - 1);
      }
    }
  }

  ghost function Took(i: nat): Request -> bool { (r: Request) => !r.redirect && Between(r.durationMs, i) }

  function Bytes(rs: seq<Request>): nat {
    if rs == [] then 0 else Bytes(rs[..|rs| - 1]) + if rs[|rs| - 1].redirect then 0 else rs[|rs| - 1].responseBytes
  }

  function One(b: bool): nat { if b then 1 else 0 }

  /** What one request adds to the totals. */
  lemma AddFields(c: Counters, r: Request)
    ensures var d := Add(c, r);
            && d.requests == c.requests + One(Served(r)) && d.redirects == c.redirects + One(Redirected(r))
            && d.s2xx == c.s2xx + One(Success(r)) && d.s3xx == c.s3xx + One(Moved(r))
            && d.s4xx == c.s4xx + One(ClientError(r)) && d.s5xx == c.s5xx + One(ServerError(r))
            && d.responseBytes == c.responseBytes + (if r.redirect then 0 else r.responseBytes)
            && d.sampleRate == (if r.sampleRate > c.sampleRate then r.sampleRate else c.sampleRate)
  {
    hide SlotFrom; hide Hit;
  }

  /** The totals after any requests are counts of those requests. */
  lemma {:induction false} StatusCounts(rs: seq<Request>)
    ensures var c := AddAll(rs);
            && c.requests == |Where(rs, Served)| && c.redirects == |Where(rs, Redirected)|
            && c.s2xx == |Where(rs, Success)| && c.s3xx == |Where(rs, Moved)|
            && c.s4xx == |Where(rs, ClientError)| && c.s5xx == |Where(rs, ServerError)|
            && c.responseBytes == Bytes(rs)
  {
    if rs != [] {
      StatusCounts(rs[..|rs| - 1]);
      AddFields(AddAll(rs[..|rs| - 1]), rs[|rs| - 1]);
      WhereGrows(rs, Served); WhereGrows(rs, Redirected); WhereGrows(rs, Success); WhereGrows(rs, Moved);
      WhereGrows(rs, ClientError); WhereGrows(rs, ServerError);
      hide Add; hide Where;
    }
  }

  /** The rate kept is the largest seen, and at least one. */
  lemma {:induction false} RateIsLargest(rs: seq<Request>)
    ensures var rate := AddAll(rs).sampleRate;
            && rate >= 1 && (forall i :: 0 <= i < |rs| ==> rs[i].sampleRate <= rate)
            && (rate == 1 || exists i :: 0 <= i < |rs| && rs[i].sampleRate == rate)
  {
    if rs != [] {
      var init, n := rs[..|rs| - 1], |rs| - 1;
      RateIsLargest(init);
      AddFields(AddAll(init), rs[n]);
      hide Add;
      var was := AddAll(init).sampleRate;
      if was != 1 {
        var i :| 0 <= i < |init| && init[i].sampleRate == was;
        assert rs[i].sampleRate == was;
      }
    }
  }

  /** Each latency slot counts the requests that took longer than the bound before it and no
      longer than its own. */
  lemma {:induction false} SlotCounts(rs: seq<Request>, i: nat)
    requires i < SLOTS
    ensures |AddAll(rs).latency| == SLOTS && AddAll(rs).latency[i] == |Where(rs, Took(i))|
  {
    TableShape(rs);
    hide Add; hide Shape;
    assert |AddAll(rs).latency| == SLOTS by { ShapeLatency(AddAll(rs)); }
    if rs != [] {
      var init, r := rs[..|rs| - 1], rs[|rs| - 1];
      SlotCounts(init, i);
      WhereGrows(rs, Took(i));
      BetweenIff(r.durationMs, i);
      AddTotal(AddAll(init), r, Slot(i));
      hide Where; hide Between; hide SlotFrom;
    }
  }

  lemma ShapeLatency(c: Counters)
    requires Shape(c)
    ensures |c.latency| == SLOTS
  {
  }

  // ---------------------------------------------------------------------- the path table

  predicate Pathed(r: Request) { !r.redirect && r.path != "" }

  /** The distinct paths of the requests. */
  ghost function Names(rs: seq<Request>): set<string> {
    set i | 0 <= i < |rs| && Pathed(rs[i]) :: rs[i].path
  }

  lemma NamesGrow(rs: seq<Request>)
    requires rs != []
    ensures Names(rs) == Names(rs[..|rs| - 1]) + if Pathed(rs[|rs| - 1]) then {rs[|rs| - 1].path} else {}
  {
    var init, n := rs[..|rs| - 1], |rs| - 1;
    forall p | p in Names(init) ensures p in Names(rs) {
      var i :| 0 <= i < |init| && Pathed(init[i]) && init[i].path == p;
      assert Pathed(rs[i]) && rs[i].path == p;
    }
    forall p | p in Names(rs) && !(Pathed(rs[n]) && p == rs[n].path) ensures p in Names(init) {
      var i :| 0 <= i < |rs| && Pathed(rs[i]) && rs[i].path == p;
      assert init[i] == rs[i];
    }
  }

  /** What one request does to the set of rows. */
  lemma AddKeys(c: Counters, r: Request)
    ensures var d := Add(c, r);
            var full := Pathed(r) && r.path !in c.paths && |c.paths| >= 200;
            && d.paths.Keys == (if !Pathed(r) then c.paths.Keys
                                else c.paths.Keys + {if full then "(other)" else r.path})
            && (d.pathCapHit <==> c.pathCapHit || full)
  {
    hide Hit; hide SlotFrom;
  }

  lemma KeysBounds(a: set<string>, b: set<string>, p: string)
    requires b == a + {p}
    ensures p in a ==> b == a
    ensures p !in a ==> |b| == |a| + 1
  {
    if p !in a {
      assert b - {p} == a;
    }
  }

  /** Up to two hundred distinct paths each have a row and nothing else has one; the cap is
      hit exactly when there are more, and the table is full from then on. */
  lemma {:induction false} CapHitIff(rs: seq<Request>)
    ensures var c := AddAll(rs);
            && (c.pathCapHit <==> |Names(rs)| > 200)
            && (|Names(rs)| <= 200 ==> c.paths.Keys == Names(rs))
            && (|Names(rs)| > 200 ==> |c.paths| >= 200)
  {
    if rs != [] {
      var init, r := rs[..|rs| - 1], rs[|rs| - 1];
      CapHitIff(init);
      NamesGrow(rs);
      AddKeys(AddAll(init), r);
      hide Add; hide Names;
      var c, d := AddAll(init), AddAll(rs);
      assert |c.paths| == |c.paths.Keys| && |d.paths| == |d.paths.Keys|;
      if Pathed(r) {
        KeysBounds(Names(init), Names(rs), r.path);
        KeysBounds(c.paths.Keys, d.paths.Keys, if r.path !in c.paths && |c.paths| >= 200 then "(other)" else r.path);
      }
    }
  }

  // ------------------------------------------------------------------ what a row counts

  predicate Counts(r: Request, m: Measure) {
    match m
    case Hits => true
    case Failures => r.status >= 500
    case Slot(i) => Between(r.durationMs, i)
  }

  /** The requests for one path that the measure counts. */
  ghost function For(p: string, m: Measure): Request -> bool { (r: Request) => Pathed(r) && r.path == p && Counts(r, m) }

  /** The requests for paths without a row, or for the shared row by name. */
  ghost function Stray(keys: set<string>, m: Measure): Request -> bool {
    (r: Request) => Pathed(r) && (r.path == "(other)" || r.path !in keys) && Counts(r, m)
  }

  lemma CountsIsWeight(r: Request, m: Measure)
    ensures Weight(r, m) == One(Counts(r, m))
  {
    if m.Slot? {
      BetweenIff(r.durationMs, m.i);
    }
    hide SlotFrom; hide Between;
  }

  /** The row's value, zero when there is none. */
  function At(paths: map<string, PathCounters>, p: string, m: Measure): nat {
    if p in paths then Of(paths[p], m) else 0
  }

  lemma AddRow(c: Counters, r: Request, p: string, m: Measure)
    requires Shape(c)
    ensures var row := if r.path !in c.paths && |c.paths| >= 200 then "(other)" else r.path;
            At(Add(c, r).paths, p, m) == At(c.paths, p, m) + One(Pathed(r) && p == row && Counts(r, m))
  {
    AddedPaths(c, r);
    CountsIsWeight(r, m);
    hide Add; hide Counts; hide Weight; hide Hit; hide Of; hide NoLatency;
    if Pathed(r) {
      var row := RowFor(c, r.path);
      var was := if row in c.paths then c.paths[row] else NO_HITS;
      HitWeight(was, r, m);
      NoHits(m);
    }
  }

  /** A path with a row occurs, and all of its requests are counted there. A path that
      occurs and has no row met a full table. */
  ghost predicate OwnRow(rs: seq<Request>, c: Counters, p: string, m: Measure) {
    && (p in c.paths ==> p in Names(rs) && At(c.paths, p, m) == |Where(rs, For(p, m))|)
    && (p !in c.paths && p in Names(rs) ==> |c.paths| >= 200)
  }

  lemma NoneFor(rs: seq<Request>, p: string, m: Measure)
    requires p !in Names(rs)
    ensures Where(rs, For(p, m)) == {}
  {
    forall i | 0 <= i < |rs| ensures !For(p, m)(rs[i]) {
      assert Pathed(rs[i]) ==> rs[i].path in Names(rs);
    }
  }

  lemma {:induction false} RowCounts(rs: seq<Request>, p: string, m: Measure)
    requires p != "(other)"
    ensures OwnRow(rs, AddAll(rs), p, m)
  {
    if rs != [] {
      var init, r := rs[..|rs| - 1], rs[|rs| - 1];
      var c, d := AddAll(init), AddAll(rs);
      RowCounts(init, p, m);
      TableShape(init);
      NamesGrow(rs);
      AddKeys(c, r);
      AddRow(c, r, p, m);
      WhereGrows(rs, For(p, m));
      if p !in Names(init) {
        NoneFor(init, p, m);
      }
      hide Add; hide Names; hide Where; hide Counts; hide Shape; hide Of;
      KeysGrow(c.paths.Keys, d.paths.Keys);
      assert |c.paths| == |c.paths.Keys| && |d.paths| == |d.paths.Keys|;
      assert At(c.paths, p, m) == if p in c.paths then |Where(init, For(p, m))| else 0;
    }
  }

  lemma KeysGrow(a: set<string>, b: set<string>)
    requires a <= b
    ensures |a| <= |b|
  {
    assert a + (b - a) == b;
  }

  /** Every row but the shared one counts all requests of its path, in each measure, and no
      other. */
  lemma RowIsItsPath(rs: seq<Request>, p: string, m: Measure)
    requires p != "(other)" && p in AddAll(rs).paths
    ensures p in Names(rs) && Of(AddAll(rs).paths[p], m) == |Where(rs, For(p, m))|
  {
    RowCounts(rs, p, m);
    hide AddAll;
  }

  /** The shared row counts exactly the requests whose path has no row. */
  lemma {:induction false} OtherRowIsTheRest(rs: seq<Request>, m: Measure)
    ensures At(AddAll(rs).paths, "(other)", m) == |Where(rs, Stray(AddAll(rs).paths.Keys, m))|
  {
    if rs != [] {
      var init, r := rs[..|rs| - 1], rs[|rs| - 1];
      var c, d := AddAll(init), AddAll(rs);
      OtherRowIsTheRest(init, m);
      TableShape(init);
      AddKeys(c, r);
      AddRow(c, r, "(other)", m);
      WhereGrows(rs, Stray(d.paths.Keys, m));
      hide Add; hide Shape; hide Counts; hide At;
      if Pathed(r) && r.path !in c.paths && |c.paths| < 200 && r.path != "(other)" {
        RowCounts(init, r.path, m);
        StrayKeeps(init, c.paths.Keys, r.path, m);
      } else {
        StraySame(init, c.paths.Keys, d.paths.Keys, m);
      }
    }
  }

  /** A path that did not occur before was nobody's stray. */
  lemma StrayKeeps(rs: seq<Request>, keys: set<string>, p: string, m: Measure)
    requires p !in Names(rs)
    ensures Where(rs, Stray(keys + {p}, m)) == Where(rs, Stray(keys, m))
  {
    forall i | 0 <= i < |rs| ensures Stray(keys + {p}, m)(rs[i]) == Stray(keys, m)(rs[i]) {
      assert Pathed(rs[i]) ==> rs[i].path in Names(rs);
    }
    WhereSame(rs, Stray(keys + {p}, m), Stray(keys, m));
  }

  lemma StraySame(rs: seq<Request>, keys: set<string>, more: set<string>, m: Measure)
    requires keys + {"(other)"} == more + {"(other)"}
    ensures Where(rs, Stray(more, m)) == Where(rs, Stray(keys, m))
  {
    forall i | 0 <= i < |rs| ensures Stray(more, m)(rs[i]) == Stray(keys, m)(rs[i]) {
      assert rs[i].path in keys + {"(other)"} <==> rs[i].path in more + {"(other)"};
    }
    WhereSame(rs, Stray(more, m), Stray(keys, m));
  }

  // ------------------------------------------------------------------- first come

  lemma {:induction false} FullStays(a: seq<Request>, b: seq<Request>, p: string)
    requires p != "(other)" && p !in AddAll(a).paths && |AddAll(a).paths| >= 200
    ensures p !in AddAll(a + b).paths && |AddAll(a + b).paths| >= 200
  {
    if b == [] {
      assert a + b == a;
    } else {
      var init := b[..|b| - 1];
      FullStays(a, init, p);
      OneMore(a, b);
      hide Add;
      AddKeys(AddAll(a + init), b[|b| - 1]);
      KeysGrow(AddAll(a + init).paths.Keys, AddAll(a + b).paths.Keys);
    }
  }

  lemma OneMore(a: seq<Request>, b: seq<Request>)
    requires b != []
    ensures AddAll(a + b) == Add(AddAll(a + b[..|b| - 1]), b[|b| - 1])
  {
    hide AddAll;
    var init, last := b[..|b| - 1], b[|b| - 1];
    assert b == init + [last];
    assert a + b == a + init + [last];
    Folded(a + init, last);
  }

  lemma {:induction false} RowStays(a: seq<Request>, b: seq<Request>, p: string)
    requires p in AddAll(a).paths
    ensures p in AddAll(a + b).paths
  {
    if b == [] {
      assert a + b == a;
    } else {
      RowStays(a, b[..|b| - 1], p);
      OneMore(a, b);
      hide Add;
      AddKeys(AddAll(a + b[..|b| - 1]), b[|b| - 1]);
      assert p in AddAll(a + b).paths.Keys;
    }
  }

  lemma Arrives(before: seq<Request>, r: Request)
    requires Pathed(r) && r.path !in Names(before) && r.path != "(other)"
    ensures |Names(before)| < 200 ==> r.path in AddAll(before + [r]).paths
    ensures |Names(before)| >= 200 ==> r.path !in AddAll(before).paths && |AddAll(before).paths| >= 200
  {
    var c := AddAll(before);
    Folded(before, r);
    CapHitIff(before);
    RowCounts(before, r.path, Hits);
    AddKeys(c, r);
    hide Add; hide AddAll; hide Names; hide Where;
    assert |c.paths| == |c.paths.Keys|;
    assert r.path in c.paths ==> r.path in c.paths.Keys;
  }

  /** First come, first served: a path has a row exactly when fewer than two hundred other
      paths came before its first request. */
  lemma FirstCome(before: seq<Request>, r: Request, after: seq<Request>)
    requires Pathed(r) && r.path !in Names(before) && r.path != "(other)"
    ensures r.path in AddAll(before + [r] + after).paths <==> |Names(before)| < 200
  {
    Arrives(before, r);
    hide AddAll; hide Names;
    if |Names(before)| < 200 {
      RowStays(before + [r], after, r.path);
    } else {
      assert before + [r] + after == before + ([r] + after);
      FullStays(before, [r] + after, r.path);
    }
  }
}
