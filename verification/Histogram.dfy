/** Latency histograms: how a duration is slotted on the agent (agent/metrics/bucket.go),
    and how the panel merges histograms and reads percentiles (core/domain/metrics.go).

    Durations and percentiles are real numbers and counters are unbounded: float64
    rounding and 64-bit overflow are not part of the model. */
module Histogram {

  const BOUNDS: seq<real> :=
    [1.0, 2.0, 5.0, 10.0, 25.0, 50.0, 100.0, 250.0, 500.0, 1000.0, 2500.0, 5000.0, 10000.0, 30000.0, 60000.0]

  function Bound(k: nat): real
    requires k <= LAST
  {
    BOUNDS[k]
  }

  const LAST: nat := 14
  const SLOTS: nat := 16

  // -------------------------------------------------------------- reference

  /** How many durations are at most `b`. */
  function AtMost(durations: seq<real>, b: real): nat {
    if durations == [] then 0
    else AtMost(durations[..|durations| - 1], b) + if durations[|durations| - 1] <= b then 1 else 0
  }

  /** `r` is the least bound with at least fraction p of the durations at or below it,
      or the last bound if no bound has that many. */
  ghost predicate IsPercentile(durations: seq<real>, p: real, r: real) {
    var need := p * |durations| as real;
    if exists k :: 0 <= k <= LAST && AtMost(durations, Bound(k)) as real >= need
    then exists k :: 0 <= k <= LAST && r == Bound(k) && AtMost(durations, Bound(k)) as real >= need
                     && forall j :: 0 <= j < k ==> (AtMost(durations, Bound(j)) as real) < need
    else r == Bound(LAST)
  }

  // ------------------------------------------------------------------- slots

  function SlotFrom(ms: real, i: nat): (slot: nat)
    requires i <= |BOUNDS|
    ensures i <= slot < SLOTS
    ensures slot <= LAST ==> ms <= Bound(slot)
    ensures forall j :: i <= j < slot && j <= LAST ==> ms > Bound(j)
    decreases |BOUNDS| - i
  {
    if i == |BOUNDS| then SLOTS - 1 else if ms <= Bound(i) then i else SlotFrom(ms, i + 1)
  }

  /** latencySlot: the first bound that holds the duration, or the overflow slot. */
  method LatencySlot(ms: real) returns (slot: nat)
    ensures slot == SlotFrom(ms, 0)
    ensures slot < SLOTS && (slot <= LAST ==> ms <= Bound(slot)) && forall j :: 0 <= j < slot ==> ms > Bound(j)
  {
    for i := 0 to |BOUNDS|
      invariant SlotFrom(ms, 0) == SlotFrom(ms, i)
    {
      if ms <= BOUNDS[i] {
        return i;
      }
    }
    return SLOTS - 1;
  }

  lemma SlotIsRank(ms: real, i: nat)
    requires i <= LAST
    ensures SlotFrom(ms, 0) <= i <==> ms <= Bound(i)
  {
    BoundsIncrease(SlotFrom(ms, 0), i);
  }

  lemma BoundsIncrease(i: nat, j: nat)
    requires j <= LAST
    ensures i <= j ==> Bound(i) <= Bound(j)
  {
  }

  // ---------------------------------------------------------------- histograms

  function Empty(): (h: seq<int>)
    ensures |h| == SLOTS && forall i :: 0 <= i < SLOTS ==> h[i] == 0
  {
    seq(SLOTS, _ => 0)
  }

  /** The histogram an agent builds from a list of durations. */
  function HistOf(durations: seq<real>): (h: seq<int>)
    ensures |h| == SLOTS
  {
    if durations == [] then Empty()
    else
      var before, slot := HistOf(durations[..|durations| - 1]), SlotFrom(durations[|durations| - 1], 0);
      before[slot := before[slot] + 1]
  }

  function Sum(h: seq<int>): int {
    if h == [] then 0 else Sum(h[..|h| - 1]) + h[|h| - 1]
  }

  /** The running count after n slots. */
  function Prefix(h: seq<int>, n: nat): int
    requires n <= |h|
  {
    Sum(h[..n])
  }

  lemma {:induction false} SumBump(h: seq<int>, i: nat, n: nat)
    requires i < |h| && n <= |h|
    ensures Prefix(h[i := h[i] + 1], n) == Prefix(h, n) + if i < n then 1 else 0
    decreases n
  {
    if n > 0 {
      SumBump(h, i, n - 1);
      assert h[i := h[i] + 1][..n][..n - 1] == h[i := h[i] + 1][..n - 1] && h[..n][..n - 1] == h[..n - 1];
    }
  }

  lemma {:induction false} SumEmpty(n: nat)
    requires n <= SLOTS
    ensures Prefix(Empty(), n) == 0
  {
    if n > 0 {
      SumEmpty(n - 1);
      assert Empty()[..n][..n - 1] == Empty()[..n - 1];
    }
  }

  /** All the counts are all the durations. */
  lemma {:induction false} HistTotal(durations: seq<real>)
    ensures Sum(HistOf(durations)) == |durations|
  {
    hide SlotFrom; hide Bound; hide Sum;
    assert HistOf(durations)[..SLOTS] == HistOf(durations);
    if durations == [] {
      SumEmpty(SLOTS);
    } else {
      var init, last := durations[..|durations| - 1], durations[|durations| - 1];
      HistTotal(init);
      SumBump(HistOf(init), SlotFrom(last, 0), SLOTS);
      assert HistOf(init)[..SLOTS] == HistOf(init);
    }
  }

  /** The counts up to and including slot i are the durations within bound i. */
  lemma {:induction false} PrefixIsAtMost(durations: seq<real>, i: nat)
    requires i <= LAST
    ensures Prefix(HistOf(durations), i + 1) == AtMost(durations, Bound(i))
  {
    hide SlotFrom; hide Bound; hide Sum; hide Prefix;
    if durations == [] {
      SumEmpty(i + 1);
    } else {
      var init, last := durations[..|durations| - 1], durations[|durations| - 1];
      PrefixIsAtMost(init, i);
      SumBump(HistOf(init), SlotFrom(last, 0), i + 1);
      SlotIsRank(last, i);
    }
  }

  // ------------------------------------------------------------------- merging

  function Grow(dst: seq<int>): (g: seq<int>)
    ensures |g| >= SLOTS && |g| >= |dst|
  {
    if |dst| < SLOTS then seq(SLOTS, i => if 0 <= i < |dst| then dst[i] else 0) else dst
  }

  /** Element-wise sum into a destination of at least SLOTS entries; source entries past
      its end are ignored. */
  function Merged(dst: seq<int>, src: seq<int>): (m: seq<int>)
    ensures |m| == |Grow(dst)|
    ensures forall i :: 0 <= i < |m| ==> m[i] == Grow(dst)[i] + if i < |src| then src[i] else 0
  {
    seq(|Grow(dst)|, i requires 0 <= i < |Grow(dst)| => Grow(dst)[i] + if i < |src| then src[i] else 0)
  }

  /** MergeHistograms: in place when the destination is long enough, into a grown copy
      otherwise; source and destination may be the same slice. */
  method MergeHistograms(dst: array<int>, src: array<int>) returns (out: array<int>)
    modifies dst
    ensures out[..] == Merged(old(dst[..]), old(src[..]))
    ensures if dst.Length >= SLOTS then out == dst else fresh(out) && dst[..] == old(dst[..])
  {
    ghost var from := src[..];
    if dst.Length < SLOTS {
      out := new int[SLOTS](_ => 0);
      for i := 0 to dst.Length
        invariant fresh(out) && out.Length == SLOTS && dst[..] == old(dst[..]) && src[..] == from
        invariant forall j :: 0 <= j < SLOTS ==> out[j] == if j < i then old(dst[..])[j] else 0
      {
        out[i] := dst[i];
      }
    } else {
      out := dst;
    }
    ghost var grown := Grow(old(dst[..]));
    assert |grown| == out.Length && forall j :: 0 <= j < out.Length ==> out[j] == grown[j];
    for i := 0 to src.Length
      invariant forall j :: 0 <= j < out.Length ==> out[j] == grown[j] + if j < i && j < |from| then from[j] else 0
      invariant forall j :: i <= j < src.Length ==> src[j] == from[j]
      invariant dst.Length < SLOTS ==> fresh(out) && dst[..] == old(dst[..])
    {
      if i < out.Length {
        out[i] := out[i] + src[i];
      }
    }
  }

  lemma MergedBump(g: seq<int>, h: seq<int>, slot: nat)
    requires |g| == |h| == SLOTS && slot < SLOTS
    ensures Merged(g, h[slot := h[slot] + 1]) == Merged(g, h)[slot := Merged(g, h)[slot] + 1]
  {
  }

  lemma {:induction false} HistOfConcat(a: seq<real>, b: seq<real>)
    ensures HistOf(a + b) == Merged(HistOf(a), HistOf(b))
  {
    hide SlotFrom; hide Merged;
    if b == [] {
      assert a + b == a;
      MergedEmpty(HistOf(a));
    } else {
      var init := b[..|b| - 1];
      assert (a + b)[..|a + b| - 1] == a + init;
      HistOfConcat(a, init);
      MergedBump(HistOf(a), HistOf(init), SlotFrom(b[|b| - 1], 0));
    }
  }

  lemma MergedEmpty(h: seq<int>)
    requires |h| == SLOTS
    ensures Merged(h, Empty()) == h
  {
  }

  function Flatten(parts: seq<seq<real>>): seq<real> {
    if parts == [] then [] else Flatten(parts[..|parts| - 1]) + parts[|parts| - 1]
  }

  /** A window's histogram: the parts' histograms merged one after the other into an
      initially empty slice. */
  function MergeAll(parts: seq<seq<real>>): seq<int> {
    if parts == [] then [] else Merged(MergeAll(parts[..|parts| - 1]), HistOf(parts[|parts| - 1]))
  }

  /** Merging loses nothing: however the durations were split into buckets, the merged
      histogram is the histogram of all of them. */
  lemma {:induction false} MergeLosesNothing(parts: seq<seq<real>>)
    ensures Grow(MergeAll(parts)) == HistOf(Flatten(parts))
    ensures parts != [] ==> MergeAll(parts) == HistOf(Flatten(parts))
  {
    if parts != [] {
      var init, last := parts[..|parts| - 1], parts[|parts| - 1];
      MergeLosesNothing(init);
      HistOfConcat(Flatten(init), last);
      assert Merged(MergeAll(init), HistOf(last)) == Merged(HistOf(Flatten(init)), HistOf(last));
    }
  }

  // ---------------------------------------------------------------- percentiles

  /** The first slot at which the running count reaches `need`, from slot i on. */
  function Reach(h: seq<int>, need: real, i: nat): (k: nat)
    requires i <= |h|
    ensures i <= k <= |h|
    ensures k < |h| ==> Prefix(h, k + 1) as real >= need
    ensures forall j {:trigger Prefix(h, j)} :: i < j <= k ==> (Prefix(h, j) as real) < need
    decreases |h| - i
  {
    if i == |h| || Prefix(h, i + 1) as real >= need then i else Reach(h, need, i + 1)
  }

  function PercentileOf(h: seq<int>, p: real): real {
    if Sum(h) == 0 then 0.0
    else
      var k := Reach(h, Sum(h) as real * p, 0);
      if k <= LAST && k < |h| then Bound(k) else Bound(LAST)
  }

  lemma PrefixStep(h: seq<int>, n: nat)
    requires n < |h|
    ensures Prefix(h, n + 1) == Prefix(h, n) + h[n]
  {
    assert h[..n + 1][..n] == h[..n];
  }

  /** The first loop of Percentile: the total. */
  method Total(buckets: seq<int>) returns (total: int)
    ensures total == Sum(buckets)
  {
    total := 0;
    for i := 0 to |buckets|
      invariant total == Prefix(buckets, i)
    {
      PrefixStep(buckets, i);
      total := total + buckets[i];
    }
    assert buckets[..|buckets|] == buckets;
  }

  /** The second loop: the slot in which the running count reaches the target. */
  method FirstReach(buckets: seq<int>, target: real) returns (k: nat)
    ensures k == Reach(buckets, target, 0)
  {
    hide Sum;
    var running := 0;
    assert Prefix(buckets, 0) == 0 by { PrefixOfNothing(buckets); }
    for i := 0 to |buckets|
      invariant running == Prefix(buckets, i)
      invariant Reach(buckets, target, 0) == Reach(buckets, target, i)
    {
      PrefixStep(buckets, i);
      running := running + buckets[i];
      if running as real >= target {
        return i;
      }
    }
    return |buckets|;
  }

  /** Percentile, over a histogram of any length. */
  method Percentile(buckets: seq<int>, p: real) returns (r: real)
    ensures r == PercentileOf(buckets, p)
  {
    hide Sum; hide Reach;
    var total := Total(buckets);
    if total == 0 {
      return 0.0;
    }
    var i := FirstReach(buckets, total as real * p);
    r := if i < |buckets| && i < |BOUNDS| then Bound(i) else Bound(LAST);
  }

  lemma PrefixOfNothing(h: seq<int>)
    ensures Prefix(h, 0) == 0
  {
  }

  /** For every list of durations, every way of splitting it into buckets and every p,
      the percentile of the merged histograms is the percentile of the durations. */
  lemma PercentileExact(parts: seq<seq<real>>, p: real)
    ensures var all := Flatten(parts);
            if all == [] then PercentileOf(MergeAll(parts), p) == 0.0
            else IsPercentile(all, p, PercentileOf(MergeAll(parts), p))
  {
    MergeLosesNothing(parts);
    if parts != [] {
      HistogramPercentile(Flatten(parts), p);
    }
  }

  lemma Commute(a: real, b: real)
    ensures a * b == b * a
  {
  }

  lemma HistogramPercentile(all: seq<real>, p: real)
    ensures if all == [] then PercentileOf(HistOf(all), p) == 0.0
            else IsPercentile(all, p, PercentileOf(HistOf(all), p))
  {
    hide HistOf; hide Bound; hide AtMost; hide Prefix; hide Sum; hide Reach; hide IsPercentile;
    HistTotal(all);
    var need := |all| as real * p;
    Commute(p, |all| as real);
    ReachIsPercentile(all, p, need);
  }

  function ReachedBound(h: seq<int>, need: real): real {
    var k := Reach(h, need, 0);
    if k <= LAST && k < |h| then Bound(k) else Bound(LAST)
  }

  lemma ReachIsPercentile(all: seq<real>, p: real, need: real)
    requires need == p * |all| as real
    ensures IsPercentile(all, p, ReachedBound(HistOf(all), need))
  {
    hide SlotFrom; hide Bound; hide Sum; hide HistOf; hide AtMost; hide Prefix;
    var h := HistOf(all);
    var k := Reach(h, need, 0);
    forall j | 0 <= j <= LAST ensures Prefix(h, j + 1) == AtMost(all, Bound(j)) {
      PrefixIsAtMost(all, j);
    }
    if k <= LAST {
      assert AtMost(all, Bound(k)) as real >= need;
    }
  }
}
