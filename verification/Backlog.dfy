/** The collector's buckets (agent/metrics/collector.go): one open bucket, a bounded
    backlog of sealed ones, and a sealer that publishes outside the lock while lines keep
    being folded in. Times are nanoseconds since the zero time. */
module Backlog {
  import opened Common

  const MAX_BACKLOG: nat := 12
  const SECOND: int := 1_000_000_000

  /** One counted observation: an access-log line, a container sample or a disk reading. */
  datatype Item = Item(at: nat, seconds: int, what: int)

  /** `serial` is the bucket's identity: buckets are numbered as they are made. */
  datatype Bucket = Bucket(serial: nat, start: int, seconds: int, items: seq<Item>)

  /** `todo` and `unsent` are the sealer's own slices while it is outside the lock. */
  datatype State = State(open: Option<Bucket>, backlog: seq<Bucket>, sealing: bool, todo: seq<Bucket>,
                         unsent: seq<Bucket>, published: seq<Bucket>, dropped: seq<Bucket>, made: nat)

  datatype Event =
    | Fold(at: nat, seconds: int, whats: seq<int>)   // a locked fold, sample or sampleDisk
    | SealBegin(at: nat, seconds: int)               // sealIfDue's first locked section
    | Publish(ok: bool)                              // one turn of its loop
    | SealEnd                                        // its second locked section

  const START := State(None, [], false, [], [], [], [], 0)

  /** time.Truncate: the start of the interval that holds `at`. */
  function Floor(at: nat, seconds: int): int {
    if seconds <= 0 then at else at - at % (seconds * SECOND)
  }

  function OpenSeq(s: State): seq<Bucket> {
    if s.open.Some? then [s.open.value] else []
  }

  /** Keep the last twelve, drop the oldest. */
  function Trim(s: State): State {
    if |s.backlog| > MAX_BACKLOG then
      var cut := |s.backlog| - MAX_BACKLOG;
      s.(dropped := s.dropped + s.backlog[..cut], backlog := s.backlog[cut..])
    else s
  }

  function Fresh(s: State, start: int, seconds: int): State {
    s.(open := Some(Bucket(s.made, start, seconds, [])), made := s.made + 1)
  }

  function SealOpen(s: State): State {
    Trim(s.(backlog := s.backlog + OpenSeq(s), open := None))
  }

  function Due(s: State, start: int, seconds: int): bool {
    s.open.None? || s.open.value.start != start || s.open.value.seconds != seconds
  }

  /** bucketFor. */
  function Rotated(s: State, at: nat, seconds: int): (t: State)
    ensures t.open.Some? && t.open.value.start == Floor(at, seconds) && t.open.value.seconds == seconds
  {
    var start := Floor(at, seconds);
    if Due(s, start, seconds) then Fresh(SealOpen(s), start, seconds) else s
  }

  function ItemsOf(at: nat, seconds: int, whats: seq<int>): (items: seq<Item>)
    ensures |items| == |whats| && forall i :: 0 <= i < |items| ==> items[i] == Item(at, seconds, whats[i])
  {
    seq(|whats|, i requires 0 <= i < |whats| => Item(at, seconds, whats[i]))
  }

  function Pour(s: State, items: seq<Item>): State
    requires s.open.Some?
  {
    s.(open := Some(s.open.value.(items := s.open.value.items + items)))
  }

  function TakePending(s: State): State {
    s.(sealing := true, todo := s.backlog, backlog := [])
  }

  /** An empty bucket makes no report, which counts as published. */
  function Published(s: State, ok: bool): State
    requires s.todo != []
  {
    var b, rest := s.todo[0], s.todo[1..];
    if ok || b.items == [] then s.(todo := rest, published := s.published + [b])
    else s.(todo := rest, unsent := s.unsent + [b])
  }

  function PutBack(s: State): State {
    var t := s.(sealing := false, unsent := []);
    if s.unsent == [] then t else Trim(t.(backlog := s.unsent + s.backlog))
  }

  /** There is one sealer: an event its program counter does not allow does nothing. */
  function Step(s: State, e: Event): State {
    match e
    case Fold(at, seconds, whats) => Pour(Rotated(s, at, seconds), ItemsOf(at, seconds, whats))
    case SealBegin(at, seconds) => if s.sealing then s else TakePending(Rotated(s, at, seconds))
    case Publish(ok) => if s.sealing && s.todo != [] then Published(s, ok) else s
    case SealEnd => if s.sealing && s.todo == [] then PutBack(s) else s
  }

  function Exec(events: seq<Event>): State {
    if events == [] then START else Step(Exec(events[..|events| - 1]), events[|events| - 1])
  }

  // ----------------------------------------------------------------- nothing lost

  function Sum(bs: seq<Bucket>, f: Bucket -> nat): nat {
    if bs == [] then 0 else f(bs[0]) + Sum(bs[1..], f)
  }

  lemma {:induction false} SumConcat(a: seq<Bucket>, b: seq<Bucket>, f: Bucket -> nat)
    ensures Sum(a + b, f) == Sum(a, f) + Sum(b, f)
  {
    if a == [] {
      assert a + b == b;
    } else {
      assert (a + b)[1..] == a[1..] + b;
      SumConcat(a[1..], b, f);
    }
  }

  lemma SumOne(b: Bucket, f: Bucket -> nat)
    ensures Sum([b], f) == f(b)
  {
    assert [b][1..] == [];
  }

  /** The buckets whose report is or was out of the collector's open hand. */
  function Sealed(s: State): seq<Bucket> {
    s.dropped + s.published + s.unsent + s.todo + s.backlog
  }

  function Total(s: State, f: Bucket -> nat): nat {
    Sum(s.dropped, f) + Sum(s.published, f) + Sum(s.unsent, f) + Sum(s.todo, f) + Sum(s.backlog, f)
    + Sum(OpenSeq(s), f)
  }

  lemma TrimTotal(s: State, f: Bucket -> nat)
    ensures Total(Trim(s), f) == Total(s, f)
  {
    hide Sum;
    if |s.backlog| > MAX_BACKLOG {
      var cut := |s.backlog| - MAX_BACKLOG;
      assert s.backlog == s.backlog[..cut] + s.backlog[cut..];
      SumConcat(s.backlog[..cut], s.backlog[cut..], f);
      SumConcat(s.dropped, s.backlog[..cut], f);
    }
  }

  lemma SealTotal(s: State, f: Bucket -> nat)
    ensures Total(SealOpen(s), f) == Total(s, f)
  {
    hide Trim;
    var t := s.(backlog := s.backlog + OpenSeq(s), open := None);
    TrimTotal(t, f);
    SumConcat(s.backlog, OpenSeq(s), f);
    assert Sum(OpenSeq(t), f) == 0;
    hide Sum;
  }

  /** Rotation adds exactly the new bucket, if it makes one. */
  lemma RotateTotal(s: State, at: nat, seconds: int, f: Bucket -> nat)
    ensures var t := Rotated(s, at, seconds);
            Total(t, f) == Total(s, f) +
              if t.made == s.made then 0 else f(Bucket(s.made, Floor(at, seconds), seconds, []))
    ensures Rotated(s, at, seconds).made == if Due(s, Floor(at, seconds), seconds) then s.made + 1 else s.made
  {
    var start := Floor(at, seconds);
    hide Floor;
    if Due(s, start, seconds) {
      SealTotal(s, f);
      assert OpenSeq(SealOpen(s)) == [];
      assert Sum(OpenSeq(SealOpen(s)), f) == 0;
      SumOne(Bucket(s.made, start, seconds, []), f);
      hide Sum; hide Due; hide Trim;
    }
  }

  lemma PublishTotal(s: State, ok: bool, f: Bucket -> nat)
    requires s.todo != []
    ensures Total(Published(s, ok), f) == Total(s, f)
  {
    var b, rest := s.todo[0], s.todo[1..];
    assert Sum(s.todo, f) == f(b) + Sum(rest, f);
    SumOne(b, f);
    SumConcat(s.published, [b], f);
    SumConcat(s.unsent, [b], f);
    hide Sum;
  }

  lemma PutBackTotal(s: State, f: Bucket -> nat)
    ensures Total(PutBack(s), f) == Total(s, f)
  {
    assert Sum([], f) == 0;
    hide Sum; hide Trim;
    SumConcat(s.unsent, s.backlog, f);
    if s.unsent != [] {
      TrimTotal(s.(sealing := false, unsent := [], backlog := s.unsent + s.backlog), f);
    }
  }

  lemma TakeTotal(s: State, f: Bucket -> nat)
    requires s.todo == []
    ensures Total(TakePending(s), f) == Total(s, f)
  {
    assert Sum([], f) == 0;
    hide Sum;
  }

  // ------------------------------------------------------------------ the two totals

  /** Whether a bucket is number `n`. */
  function Named(n: nat): Bucket -> nat { (b: Bucket) => if b.serial == n then 1 else 0 }

  /** How often a bucket counts `x`. */
  function Counted(x: Item): Bucket -> nat { (b: Bucket) => multiset(b.items)[x] }

  function Folded(e: Event, x: Item): nat {
    if e.Fold? then multiset(ItemsOf(e.at, e.seconds, e.whats))[x] else 0
  }

  /** How often a run counts `x`. */
  function Times(events: seq<Event>, x: Item): nat {
    if events == [] then 0 else Times(events[..|events| - 1], x) + Folded(events[|events| - 1], x)
  }

  lemma PourTotals(s: State, items: seq<Item>, n: nat, x: Item)
    requires s.open.Some?
    ensures Total(Pour(s, items), Named(n)) == Total(s, Named(n))
    ensures Total(Pour(s, items), Counted(x)) == Total(s, Counted(x)) + multiset(items)[x]
  {
    var b := s.open.value;
    var c := b.(items := b.items + items);
    SumOne(b, Named(n)); SumOne(c, Named(n));
    SumOne(b, Counted(x)); SumOne(c, Counted(x));
    hide Sum;
  }

  /** Only a fold adds items and only a rotation adds a bucket: every event keeps each
      bucket in exactly one place. */
  ghost predicate Kept(s: State, t: State, e: Event, n: nat, x: Item) {
    && s.made <= t.made <= s.made + 1
    && Total(t, Named(n)) == Total(s, Named(n)) + (if n == s.made < t.made then 1 else 0)
    && Total(t, Counted(x)) == Total(s, Counted(x)) + Folded(e, x)
    && (!t.sealing ==> t.todo == [])
  }

  lemma FoldKeeps(s: State, e: Event, n: nat, x: Item)
    requires e.Fold? && (!s.sealing ==> s.todo == [])
    ensures Kept(s, Step(s, e), e, n, x)
  {
    hide Total; hide Rotated;
    RotateTotal(s, e.at, e.seconds, Named(n));
    RotateTotal(s, e.at, e.seconds, Counted(x));
    PourTotals(Rotated(s, e.at, e.seconds), ItemsOf(e.at, e.seconds, e.whats), n, x);
    RotateKeeps(s, e.at, e.seconds);
  }

  lemma SealerKeeps(s: State, e: Event, n: nat, x: Item)
    requires !e.Fold? && (!s.sealing ==> s.todo == [])
    ensures Kept(s, Step(s, e), e, n, x)
  {
    hide Total; hide Rotated; hide Published; hide PutBack;
    if e.SealBegin? && !s.sealing {
      var r := Rotated(s, e.at, e.seconds);
      RotateKeeps(s, e.at, e.seconds);
      RotateTotal(s, e.at, e.seconds, Named(n));
      RotateTotal(s, e.at, e.seconds, Counted(x));
      TakeTotal(r, Named(n));
      TakeTotal(r, Counted(x));
    } else if e.Publish? && s.sealing && s.todo != [] {
      PublishTotal(s, e.ok, Named(n));
      PublishTotal(s, e.ok, Counted(x));
      PublishKeeps(s, e.ok);
    } else if e.SealEnd? && s.sealing && s.todo == [] {
      PutBackTotal(s, Named(n));
      PutBackTotal(s, Counted(x));
      PutBackKeeps(s);
    }
  }

  lemma RotateKeeps(s: State, at: nat, seconds: int)
    ensures var t := Rotated(s, at, seconds);
            t.sealing == s.sealing && t.todo == s.todo && t.unsent == s.unsent && t.published == s.published
  {
    hide Floor;
  }

  lemma PublishKeeps(s: State, ok: bool)
    requires s.todo != []
    ensures Published(s, ok).sealing == s.sealing && Published(s, ok).made == s.made
  {
  }

  lemma PutBackKeeps(s: State)
    ensures PutBack(s).todo == s.todo && PutBack(s).made == s.made
  {
  }

  /** Over every run, each bucket ever made is in exactly one place (open, backlog, in
      flight to be sent, in flight and refused, published, or dropped), and together the
      buckets count every item exactly as often as it was folded in. */
  lemma {:induction false} NothingLost(events: seq<Event>, n: nat, x: Item)
    ensures var s := Exec(events);
            && Total(s, Named(n)) == (if n < s.made then 1 else 0)
            && Total(s, Counted(x)) == Times(events, x)
            && (!s.sealing ==> s.todo == [])
  {
    if events != [] {
      hide Total; hide Step; hide Folded;
      var s, e := Exec(events[..|events| - 1]), events[|events| - 1];
      NothingLost(events[..|events| - 1], n, x);
      if e.Fold? {
        FoldKeeps(s, e, n, x);
      } else {
        SealerKeeps(s, e, n, x);
      }
    }
  }

  // ------------------------------------------------------------------------- order

  ghost predicate Rising(bs: seq<Bucket>) {
    forall i, j :: 0 <= i < j < |bs| ==> bs[i].serial < bs[j].serial
  }

  ghost predicate Before(a: seq<Bucket>, b: seq<Bucket>) {
    forall i, j :: 0 <= i < |a| && 0 <= j < |b| ==> a[i].serial < b[j].serial
  }

  ghost predicate Below(bs: seq<Bucket>, n: nat) {
    forall i :: 0 <= i < |bs| ==> bs[i].serial < n
  }

  /** The number every sealed bucket stays below. */
  function Mark(s: State): nat {
    if s.open.Some? then s.open.value.serial else s.made
  }

  ghost predicate Line(s: State) {
    && Rising(s.unsent) && Rising(s.todo) && Rising(s.backlog)
    && Before(s.unsent, s.todo) && Before(s.unsent, s.backlog) && Before(s.todo, s.backlog)
    && Below(s.unsent, Mark(s)) && Below(s.todo, Mark(s)) && Below(s.backlog, Mark(s)) && Below(s.dropped, Mark(s))
    && Below(s.published, Mark(s)) && Mark(s) <= s.made && (s.open.Some? ==> Mark(s) < s.made)
    && (!s.sealing ==> s.todo == [] && s.unsent == [])
  }

  /** Buckets are numbered in sealing order, so: the backlog and the sealer's slices are
      in sealing order, every dropped bucket was sealed before every bucket in the
      backlog, and before every bucket in flight unless the backlog is full, in which
      case whatever the bus refuses will be dropped as well. */
  ghost predicate Ordered(s: State) {
    && Line(s)
    && |s.backlog| <= MAX_BACKLOG
    && Before(s.dropped, s.backlog)
    && ((Before(s.dropped, s.unsent) && Before(s.dropped, s.todo)) || |s.backlog| == MAX_BACKLOG)
  }

  lemma Slices(bs: seq<Bucket>, k: nat)
    requires Rising(bs) && k <= |bs|
    ensures Rising(bs[..k]) && Rising(bs[k..]) && Before(bs[..k], bs[k..])
  {
  }

  lemma Parts(bs: seq<Bucket>, k: nat, c: seq<Bucket>, n: nat)
    requires k <= |bs|
    ensures Before(c, bs) ==> Before(c, bs[..k]) && Before(c, bs[k..])
    ensures Before(bs, c) ==> Before(bs[..k], c) && Before(bs[k..], c)
    ensures Below(bs, n) ==> Below(bs[..k], n) && Below(bs[k..], n)
  {
  }

  lemma Joined(a: seq<Bucket>, b: seq<Bucket>, c: seq<Bucket>, n: nat)
    ensures Before(c, a) && Before(c, b) ==> Before(c, a + b)
    ensures Before(a, c) && Before(b, c) ==> Before(a + b, c)
    ensures Below(a, n) && Below(b, n) ==> Below(a + b, n)
    ensures Rising(a) && Rising(b) && Before(a, b) ==> Rising(a + b)
  {
  }

  lemma TrimOrdered(s: State)
    requires Line(s) && Before(s.dropped, s.backlog)
    requires (Before(s.dropped, s.unsent) && Before(s.dropped, s.todo)) || |s.backlog| >= MAX_BACKLOG
    ensures Ordered(Trim(s))
  {
    hide Rising; hide Before; hide Below;
    if |s.backlog| > MAX_BACKLOG {
      var cut := |s.backlog| - MAX_BACKLOG;
      Slices(s.backlog, cut);
      Parts(s.backlog, cut, s.dropped, Mark(s));
      Parts(s.backlog, cut, s.unsent, Mark(s));
      Parts(s.backlog, cut, s.todo, Mark(s));
      Joined(s.dropped, s.backlog[..cut], s.backlog[cut..], Mark(s));
    }
  }

  lemma RotateOrdered(s: State, at: nat, seconds: int)
    requires Ordered(s)
    ensures Ordered(Rotated(s, at, seconds))
  {
    hide Floor; hide Trim;
    if Due(s, Floor(at, seconds), seconds) {
      var t := s.(backlog := s.backlog + OpenSeq(s), open := None);
      TrimOrdered(t);
      FreshOrdered(SealOpen(s), Floor(at, seconds), seconds) by { TrimOpen(t); }
    }
  }

  lemma TrimOpen(s: State)
    ensures Trim(s).open == s.open && Trim(s).made == s.made && Trim(s).sealing == s.sealing
  {
  }

  lemma FreshOrdered(s: State, start: int, seconds: int)
    requires Ordered(s) && s.open.None?
    ensures Ordered(Fresh(s, start, seconds))
  {
  }

  lemma PublishOrdered(s: State, ok: bool)
    requires Ordered(s) && s.sealing && s.todo != []
    ensures Ordered(Published(s, ok))
  {
    var b, rest, n := s.todo[..1], s.todo[1..], Mark(s);
    assert b == [s.todo[0]];
    hide Rising; hide Before; hide Below;
    Slices(s.todo, 1);
    Parts(s.todo, 1, s.unsent, n);
    Parts(s.todo, 1, s.backlog, n);
    Parts(s.todo, 1, s.dropped, n);
    Joined(s.unsent, b, s.backlog, n);
    Joined(s.unsent, b, rest, n);
    Joined(s.unsent, b, s.dropped, n);
    Joined(s.published, b, rest, n);
  }

  lemma PutBackOrdered(s: State)
    requires Ordered(s) && s.todo == []
    ensures Ordered(PutBack(s))
  {
    if s.unsent != [] {
      var t := s.(sealing := false, unsent := [], backlog := s.unsent + s.backlog);
      assert Before([], t.backlog) && Before(t.dropped, []) && Rising([]) && Below([], Mark(s));
      hide Rising; hide Before; hide Below;
      Joined(s.unsent, s.backlog, s.dropped, Mark(s));
      Joined(s.dropped, s.unsent, s.backlog, Mark(s));
      if |s.backlog| == MAX_BACKLOG {
        assert t.backlog[|s.unsent|..] == s.backlog && t.backlog[..|s.unsent|] == s.unsent;
      } else {
        hide Trim;
        TrimOrdered(t);
      }
    } else {
      NoneBefore(s.backlog, s.dropped);
    }
  }

  lemma NoneBefore(a: seq<Bucket>, b: seq<Bucket>)
    ensures Before([], a) && Before(b, [])
  {
  }

  lemma StepOrdered(s: State, e: Event)
    requires Ordered(s)
    ensures Ordered(Step(s, e))
  {
    hide Rotated; hide PutBack; hide Published;
    match e
    case Fold(at, seconds, _) => RotateOrdered(s, at, seconds);
    case SealBegin(at, seconds) => RotateOrdered(s, at, seconds); RotateKeeps(s, at, seconds);
    case Publish(ok) => if s.sealing && s.todo != [] { PublishOrdered(s, ok); }
    case SealEnd => if s.sealing && s.todo == [] { PutBackOrdered(s); }
  }

  /** In every reachable state the backlog holds at most twelve buckets in sealing order
      and everything dropped is older than everything in it. */
  lemma {:induction false} AlwaysOrdered(events: seq<Event>)
    ensures Ordered(Exec(events))
  {
    if events != [] {
      hide Ordered; hide Step;
      AlwaysOrdered(events[..|events| - 1]);
      StepOrdered(Exec(events[..|events| - 1]), events[|events| - 1]);
    }
  }

  // ------------------------------------------------------------ sealed buckets are final

  ghost predicate IsSealed(s: State, b: Bucket) {
    b in s.dropped || b in s.published || b in s.unsent || b in s.todo || b in s.backlog
  }

  ghost predicate Present(s: State, b: Bucket) {
    IsSealed(s, b) || s.open == Some(b)
  }

  /** From `s` to `t`: what was sealed stays as it is, what was published or dropped stays
      so, and only the open bucket can have become sealed. */
  ghost predicate Final(s: State, t: State) {
    && (forall b :: IsSealed(s, b) ==> IsSealed(t, b))
    && (forall b :: IsSealed(t, b) ==> Present(s, b))
    && s.published <= t.published && s.dropped <= t.dropped
  }

  lemma TrimFinal(s: State)
    ensures Final(s, Trim(s)) && Final(Trim(s), Trim(s))
    ensures forall b :: IsSealed(s, b) <==> IsSealed(Trim(s), b)
  {
    if |s.backlog| > MAX_BACKLOG {
      var cut := |s.backlog| - MAX_BACKLOG;
      assert s.backlog == s.backlog[..cut] + s.backlog[cut..];
    }
  }

  lemma RotateFinal(s: State, at: nat, seconds: int)
    ensures Final(s, Rotated(s, at, seconds))
  {
    hide Trim; hide Floor;
    var u := s.(backlog := s.backlog + OpenSeq(s), open := None);
    assert forall b :: b in OpenSeq(s) <==> s.open == Some(b);
    assert forall b :: b in u.backlog <==> b in s.backlog || b in OpenSeq(s);
    assert forall b :: IsSealed(u, b) <==> Present(s, b);
    TrimFinal(u);
    FreshFinal(SealOpen(s), Floor(at, seconds), seconds);
  }

  lemma FreshFinal(s: State, start: int, seconds: int)
    ensures var t := Fresh(s, start, seconds);
            (forall b :: IsSealed(t, b) <==> IsSealed(s, b)) && t.published == s.published && t.dropped == s.dropped
  {
  }

  lemma PublishFinal(s: State, ok: bool)
    requires s.todo != []
    ensures Final(s, Published(s, ok))
  {
    assert s.todo == [s.todo[0]] + s.todo[1..];
  }

  lemma PutBackFinal(s: State)
    ensures Final(s, PutBack(s))
  {
    hide Trim;
    TrimFinal(s.(sealing := false, unsent := [], backlog := s.unsent + s.backlog));
  }

  lemma TakeFinal(s: State)
    requires s.todo == []
    ensures Final(s, TakePending(s))
  {
  }

  lemma StepFinal(s: State, e: Event)
    requires !s.sealing ==> s.todo == []
    ensures Final(s, Step(s, e))
  {
    if e.Fold? {
      hide Rotated;
      RotateFinal(s, e.at, e.seconds);
    } else if e.SealBegin? && !s.sealing {
      hide Rotated; hide TakePending;
      var r := Rotated(s, e.at, e.seconds);
      RotateFinal(s, e.at, e.seconds);
      RotateKeeps(s, e.at, e.seconds);
      TakeFinal(r);
      FinalThen(s, r, TakePending(r));
    } else if e.Publish? && s.sealing && s.todo != [] {
      PublishFinal(s, e.ok);
    } else if e.SealEnd? && s.sealing && s.todo == [] {
      PutBackFinal(s);
    }
  }

  /** Taking the backlog seals nothing more. */
  lemma FinalThen(s: State, r: State, t: State)
    requires Final(s, r) && Final(r, t) && forall b :: IsSealed(t, b) ==> IsSealed(r, b)
    ensures Final(s, t)
  {
  }

  /** Every bucket of the state, and no two of them share a number. */
  function All(s: State): seq<Bucket> {
    Sealed(s) + OpenSeq(s)
  }

  lemma TotalIsSum(s: State, f: Bucket -> nat)
    ensures Total(s, f) == Sum(All(s), f)
  {
    hide Sum;
    SumConcat(s.dropped, s.published, f);
    SumConcat(s.dropped + s.published, s.unsent, f);
    SumConcat(s.dropped + s.published + s.unsent, s.todo, f);
    SumConcat(s.dropped + s.published + s.unsent + s.todo, s.backlog, f);
    SumConcat(Sealed(s), OpenSeq(s), f);
  }

  lemma {:induction false} InSum(bs: seq<Bucket>, b: Bucket, f: Bucket -> nat)
    requires b in bs
    ensures Sum(bs, f) >= f(b)
  {
    if bs[0] != b {
      InSum(bs[1..], b, f);
    }
  }

  lemma {:induction false} TwoInSum(bs: seq<Bucket>, b: Bucket, c: Bucket, f: Bucket -> nat)
    requires b in bs && c in bs && b != c
    ensures Sum(bs, f) >= f(b) + f(c)
  {
    if bs[0] == b {
      InSum(bs[1..], c, f);
    } else if bs[0] == c {
      InSum(bs[1..], b, f);
    } else {
      TwoInSum(bs[1..], b, c, f);
    }
  }

  lemma OneOfEach(events: seq<Event>, b: Bucket, c: Bucket)
    requires Present(Exec(events), b) && Present(Exec(events), c) && b.serial == c.serial
    ensures b == c
  {
    hide Exec;
    var s := Exec(events);
    assert b in All(s) && c in All(s);
    if b != c {
      TwoInSum(All(s), b, c, Named(b.serial));
      TotalIsSum(s, Named(b.serial));
      NothingLost(events, b.serial, Item(0, 0, 0));
    }
  }

  /** Once sealed, a bucket is sealed with the same contents in every later state of every
      run, no other bucket carries its number, and published and dropped are for good. */
  lemma {:induction false} SealedForever(events: seq<Event>, more: seq<Event>, b: Bucket)
    requires IsSealed(Exec(events), b)
    ensures IsSealed(Exec(events + more), b)
    ensures forall c :: Present(Exec(events + more), c) && c.serial == b.serial ==> c == b
    ensures Exec(events).published <= Exec(events + more).published
    ensures Exec(events).dropped <= Exec(events + more).dropped
  {
    hide Step; hide IsSealed;
    var all := events + more;
    if more == [] {
      assert all == events;
    } else {
      var init := more[..|more| - 1];
      assert all[..|all| - 1] == events + init;
      SealedForever(events, init, b);
      NothingLost(events + init, 0, Item(0, 0, 0));
      StepFinal(Exec(events + init), all[|all| - 1]);
    }
    forall c | Present(Exec(all), c) && c.serial == b.serial ensures c == b {
      OneOfEach(all, c, b);
    }
  }

  // -------------------------------------------------------- the right bucket, and drops

  /** Everything in a bucket was counted in the bucket's own interval. */
  ghost predicate Aligned(b: Bucket) {
    forall i :: 0 <= i < |b.items| ==> Floor(b.items[i].at, b.items[i].seconds) == b.start && b.items[i].seconds == b.seconds
  }

  lemma {:induction false} InItsInterval(events: seq<Event>, b: Bucket)
    requires Present(Exec(events), b)
    ensures Aligned(b)
  {
    if events != [] {
      hide Step; hide Aligned; hide IsSealed;
      var s, e := Exec(events[..|events| - 1]), events[|events| - 1];
      NothingLost(events[..|events| - 1], 0, Item(0, 0, 0));
      StepFinal(s, e);
      if IsSealed(Exec(events), b) {
        InItsInterval(events[..|events| - 1], b);
      } else {
        if s.open.Some? {
          InItsInterval(events[..|events| - 1], s.open.value);
        }
        OpenAligned(s, e);
      }
    }
  }

  lemma OpenAligned(s: State, e: Event)
    requires s.open.Some? ==> Aligned(s.open.value)
    ensures Step(s, e).open.Some? ==> Aligned(Step(s, e).open.value)
  {
    hide Floor;
  }

  /** The open bucket and the sealed ones not yet published. */
  function Waiting(s: State): nat {
    |s.backlog| + |s.todo| + |s.unsent| + |OpenSeq(s)|
  }

  lemma DropsOnlyOverCap(s: State, e: Event)
    requires Ordered(s) && Waiting(s) <= MAX_BACKLOG
    ensures Step(s, e).dropped == s.dropped
  {
    hide Floor;
  }

  /** A run in which never more than twelve buckets wait drops nothing, however many
      publishes the bus refuses. */
  lemma {:induction false} NothingDroppedWithinCap(events: seq<Event>)
    requires forall i :: 0 <= i < |events| ==> Waiting(Exec(events[..i])) <= MAX_BACKLOG
    ensures Exec(events).dropped == []
  {
    if events != [] {
      var init := events[..|events| - 1];
      assert forall i :: 0 <= i < |init| ==> init[..i] == events[..i];
      NothingDroppedWithinCap(init);
      AlwaysOrdered(init);
      hide Ordered; hide Step; hide Waiting;
      assert events[..|events| - 1] == init;
      DropsOnlyOverCap(Exec(init), events[|events| - 1]);
    }
  }

  // ------------------------------------------------------------------- the collector

  function Sent(b: Bucket, i: nat, bus: seq<bool>): bool {
    (i < |bus| && bus[i]) || b.items == []
  }

  /** Of the buckets taken, those the bus refuses and those it takes, in order. */
  function Refused(taken: seq<Bucket>, bus: seq<bool>): seq<Bucket> {
    if taken == [] then []
    else
      var n := |taken| - 1;
      Refused(taken[..n], bus) + if Sent(taken[n], n, bus) then [] else [taken[n]]
  }

  function Accepted(taken: seq<Bucket>, bus: seq<bool>): seq<Bucket> {
    if taken == [] then []
    else
      var n := |taken| - 1;
      Accepted(taken[..n], bus) + if Sent(taken[n], n, bus) then [taken[n]] else []
  }

  lemma {:induction false} RefusedFits(taken: seq<Bucket>, bus: seq<bool>)
    ensures |Refused(taken, bus)| + |Accepted(taken, bus)| == |taken|
  {
    if taken != [] {
      RefusedFits(taken[..|taken| - 1], bus);
    }
  }

  lemma NoneTaken(taken: seq<Bucket>, bus: seq<bool>)
    ensures Refused(taken[..0], bus) == [] && Accepted(taken[..0], bus) == []
  {
  }

  lemma OneTaken(taken: seq<Bucket>, i: nat, bus: seq<bool>)
    requires i < |taken|
    ensures Refused(taken[..i + 1], bus) == Refused(taken[..i], bus) + if Sent(taken[i], i, bus) then [] else [taken[i]]
    ensures Accepted(taken[..i + 1], bus) == Accepted(taken[..i], bus) + if Sent(taken[i], i, bus) then [taken[i]] else []
  {
    assert taken[..i + 1][..i] == taken[..i];
  }

  /** What a sealer that is not sealing starts from. */
  lemma SealFacts(r: State, s: State)
    requires Ordered(r) && Ordered(s)
    ensures |r.backlog| <= MAX_BACKLOG && (!s.sealing ==> s.todo == [] && s.unsent == [])
  {
  }

  lemma NoTrim(s: State)
    requires |s.unsent| <= MAX_BACKLOG && s.backlog == []
    ensures PutBack(s) == s.(sealing := false, unsent := [], backlog := s.unsent)
  {
    assert s.unsent + s.backlog == s.unsent;
  }

  /** The collector object. The sealer's two local slices are fields here, so that folds
      can run between any two of its turns. */
  class Collector {
    var open: Option<Bucket>
    var backlog: seq<Bucket>
    var sealing: bool
    var todo: seq<Bucket>
    var unsent: seq<Bucket>
    var made: nat
    ghost var published: seq<Bucket>
    ghost var dropped: seq<Bucket>
    ghost var log: seq<Event>

    ghost function Now(): State
      reads this
    {
      State(open, backlog, sealing, todo, unsent, published, dropped, made)
    }

    /** The object is where the machine is after the events logged so far. */
    ghost predicate Valid()
      reads this
    {
      Now() == Exec(log)
    }

    constructor ()
      ensures Valid() && log == []
    {
      open, backlog, sealing, todo, unsent, made := None, [], false, [], [], 0;
      published, dropped, log := [], [], [];
    }

    method CutBacklog()
      modifies this
      ensures Now() == Trim(old(Now())) && log == old(log)
    {
      if |backlog| > MAX_BACKLOG {
        dropped := dropped + backlog[..|backlog| - MAX_BACKLOG];
        backlog := backlog[|backlog| - MAX_BACKLOG..];
      }
    }

    /** bucketFor: the open bucket for `at`, sealing the previous one at a boundary. */
    method BucketFor(at: nat, seconds: int)
      modifies this
      ensures Now() == Rotated(old(Now()), at, seconds) && log == old(log)
    {
      hide Floor; hide Trim;
      var start := Floor(at, seconds);
      if open.None? {
        assert backlog + [] == backlog;
        TrimOpen(Now());
        CutBacklog();
        open, made := Some(Bucket(made, start, seconds, [])), made + 1;
        return;
      }
      if open.value.start == start && open.value.seconds == seconds {
        return;
      }
      backlog, open := backlog + [open.value], None;
      ghost var was := Now();
      TrimOpen(was);
      CutBacklog();
      open, made := Some(Bucket(made, start, seconds, [])), made + 1;
    }

    method Fold(at: nat, seconds: int, whats: seq<int>)
      requires Valid()
      modifies this
      ensures Valid() && log == old(log) + [Event.Fold(at, seconds, whats)]
    {
      hide Rotated;
      BucketFor(at, seconds);
      open := Some(open.value.(items := open.value.items + ItemsOf(at, seconds, whats)));
      log := log + [Event.Fold(at, seconds, whats)];
      assert log[..|log| - 1] == old(log);
    }

    /** The first locked section of sealIfDue. */
    method BeginSeal(at: nat, seconds: int)
      requires Valid() && !sealing
      modifies this
      ensures Valid() && log == old(log) + [SealBegin(at, seconds)]
      ensures sealing && todo == Rotated(old(Now()), at, seconds).backlog && backlog == []
      ensures dropped == Rotated(old(Now()), at, seconds).dropped && published == old(published) && unsent == old(unsent)
    {
      hide Rotated;
      RotateKeeps(Now(), at, seconds);
      BucketFor(at, seconds);
      todo, backlog, sealing := backlog, [], true;
      log := log + [SealBegin(at, seconds)];
      assert log[..|log| - 1] == old(log);
    }

    /** One turn of the publishing loop. */
    method PublishNext(ok: bool)
      requires Valid() && sealing && todo != []
      modifies this
      ensures Valid() && log == old(log) + [Publish(ok)]
      ensures Now() == Published(old(Now()), ok)
    {
      var b := todo[0];
      todo := todo[1..];
      if ok || b.items == [] {
        published := published + [b];
      } else {
        unsent := unsent + [b];
      }
      log := log + [Publish(ok)];
      assert log[..|log| - 1] == old(log);
    }

    /** The second locked section: what the bus refused goes back to the front. */
    method EndSeal()
      requires Valid() && sealing && todo == []
      modifies this
      ensures Valid() && log == old(log) + [SealEnd] && !sealing
      ensures Now() == PutBack(old(Now()))
    {
      hide Trim;
      if unsent == [] {
        sealing := false;
      } else {
        backlog, unsent, sealing := unsent + backlog, [], false;
        TrimOpen(Now());
        CutBacklog();
      }
      log := log + [SealEnd];
      assert log[..|log| - 1] == old(log);
    }

    /** sealIfDue with nothing folded in meanwhile; `bus` says which publishes succeed.
        A bucket the bus accepts is published, and every other one is in the backlog
        again, in order: a refused publish costs a retry and no bucket. */
    method SealIfDue(at: nat, seconds: int, bus: seq<bool>)
      requires Valid() && !sealing
      modifies this
      ensures Valid() && !sealing && todo == []
      ensures var r := Rotated(old(Now()), at, seconds);
              dropped == r.dropped && backlog == Refused(r.backlog, bus)
              && published == r.published + Accepted(r.backlog, bus)
    {
      hide Rotated; hide Trim; hide Exec;
      AlwaysOrdered(log);
      RotateOrdered(Now(), at, seconds);
      RotateKeeps(Now(), at, seconds);
      ghost var r := Rotated(Now(), at, seconds);
      SealFacts(r, Now());
      hide Ordered;
      BeginSeal(at, seconds);
      PublishAll(bus);
      RefusedFits(r.backlog, bus);
      NoTrim(Now());
      EndSeal();
    }

    /** The publishing loop. */
    method PublishAll(bus: seq<bool>)
      requires Valid() && sealing && unsent == []
      modifies this
      ensures Valid() && sealing && todo == [] && backlog == old(backlog) && dropped == old(dropped)
      ensures unsent == Refused(old(todo), bus) && published == old(published) + Accepted(old(todo), bus)
    {
      hide Exec; hide Refused; hide Accepted;
      ghost var taken := todo;
      var i := 0;
      NoneTaken(taken, bus);
      while todo != []
        invariant Valid() && sealing && backlog == old(backlog) && dropped == old(dropped)
        invariant 0 <= i <= |taken| && todo == taken[i..]
        invariant unsent == Refused(taken[..i], bus) && published == old(published) + Accepted(taken[..i], bus)
        decreases |todo|
      {
        OneTaken(taken, i, bus);
        PublishNext(i < |bus| && bus[i]);
        i := i + 1;
      }
      assert taken[..i] == taken;
    }
  }
}
