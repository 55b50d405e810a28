/** The sliding-window limiter of core/auth/ratelimit.go, against the full history of
    what was asked of it.

    The limiter keeps, per key, only the failures it has not yet dropped, in a slice it
    filters in place. The reference keeps every operation ever made on the key; from
    that it derives all failures since the last Reset and the throttle episodes. Times
    and durations are nanoseconds. */
module RateLimit {
  const SECOND := 1_000_000_000

  // ------------------------------------------------------------- reference

  /** How many entries lie after `cut`. */
  function Count(log: seq<int>, cut: int): nat {
    if log == [] then 0 else Count(log[1..], cut) + if log[0] > cut then 1 else 0
  }

  /** The entries after `cut`, in order. */
  function Kept(log: seq<int>, cut: int): seq<int> {
    if log == [] then [] else (if log[0] > cut then [log[0]] else []) + Kept(log[1..], cut)
  }

  /** Everything a key can be asked; `at` is the clock read that prunes. */
  datatype Op = Ask(at: int) | Fail(at: int, stamp: int) | Refuse(at: int) | Reset

  /** The failures since the last Reset. */
  function Failures(ops: seq<Op>): seq<int> {
    if ops == [] then []
    else
      var before := Failures(ops[..|ops| - 1]);
      match ops[|ops| - 1]
      case Fail(_, stamp) => before + [stamp]
      case Reset => []
      case _ => before
  }

  /** A limiter's two parameters. */
  datatype Policy = Policy(max: nat, window: int)

  /** The window ending at `t` holds max failures or more. */
  ghost predicate Full(p: Policy, log: seq<int>, t: int) {
    Count(log, t - p.window) >= p.max
  }

  ghost predicate Throttled(p: Policy, ops: seq<Op>, at: int) {
    Full(p, Failures(ops), at)
  }

  /** Operations j..i all found the key throttled, with no Reset among them. */
  ghost predicate SameEpisode(p: Policy, ops: seq<Op>, j: int, i: int) {
    0 <= j <= i < |ops| && forall m {:trigger ops[m]} :: j <= m <= i ==> !ops[m].Reset? && Throttled(p, ops[..m], ops[m].at)
  }

  /** The episode the last operation belongs to already had a refusal. */
  ghost predicate Reported(p: Policy, ops: seq<Op>) {
    exists j {:trigger ops[j]} :: 0 <= j < |ops| && ops[j].Refuse? && SameEpisode(p, ops, j, |ops| - 1)
  }

  /** What Refuse answers at the end of `ops`. */
  ghost predicate FirstRefusal(p: Policy, ops: seq<Op>, at: int) {
    Throttled(p, ops, at) && !Reported(p, ops)
  }

  // ------------------------------------------------------- facts about windows

  lemma {:induction false} KeptLength(log: seq<int>, cut: int)
    ensures |Kept(log, cut)| == Count(log, cut)
    ensures forall i :: 0 <= i < |Kept(log, cut)| ==> Kept(log, cut)[i] > cut && Kept(log, cut)[i] in log
  {
    if log != [] {
      KeptLength(log[1..], cut);
    }
  }

  lemma {:induction false} KeptConcat(a: seq<int>, b: seq<int>, cut: int)
    ensures Kept(a + b, cut) == Kept(a, cut) + Kept(b, cut)
  {
    if a == [] {
      assert a + b == b;
    } else {
      assert (a + b)[1..] == a[1..] + b;
      KeptConcat(a[1..], b, cut);
    }
  }

  lemma {:induction false} KeptTwice(log: seq<int>, cut: int, later: int)
    requires cut <= later
    ensures Kept(Kept(log, cut), later) == Kept(log, later)
  {
    if log != [] {
      KeptTwice(log[1..], cut, later);
      KeptConcat(if log[0] > cut then [log[0]] else [], Kept(log[1..], cut), later);
    }
  }

  /** The failures of the history that stand: stamped after `cut` and not followed by a
      Reset. */
  ghost function Standing(ops: seq<Op>, cut: int): set<int> {
    set i | 0 <= i < |ops| && ops[i].Fail? && ops[i].stamp > cut && forall j :: i < j < |ops| ==> !ops[j].Reset?
  }

  lemma CountAppend(log: seq<int>, e: int, cut: int)
    ensures Count(log + [e], cut) == Count(log, cut) + if e > cut then 1 else 0
  {
    KeptConcat(log, [e], cut);
    KeptLength(log, cut);
    KeptLength(log + [e], cut);
    assert [e][1..] == [];
  }

  lemma {:induction false} StandingCounted(ops: seq<Op>, cut: int)
    ensures |Standing(ops, cut)| == Count(Failures(ops), cut)
  {
    if ops != [] {
      var init, n := ops[..|ops| - 1], |ops| - 1;
      StandingCounted(init, cut);
      hide Count;
      if ops[n].Reset? {
        assert Standing(ops, cut) == {};
        CountAll([], cut);
      } else {
        StandingStep(ops, cut);
        if ops[n].Fail? {
          CountAppend(Failures(init), ops[n].stamp, cut);
        }
      }
    }
  }

  lemma StandingStep(ops: seq<Op>, cut: int)
    requires ops != [] && !ops[|ops| - 1].Reset?
    ensures var init, n := ops[..|ops| - 1], |ops| - 1;
            && n !in Standing(init, cut)
            && Standing(ops, cut) == Standing(init, cut) + if ops[n].Fail? && ops[n].stamp > cut then {n} else {}
  {
    var init, n := ops[..|ops| - 1], |ops| - 1;
    assert forall i :: 0 <= i < n ==> init[i] == ops[i];
    forall i | i in Standing(init, cut) ensures i in Standing(ops, cut) {
      forall j | i < j < |ops| ensures !ops[j].Reset? {
        assert j < n ==> !init[j].Reset?;
      }
    }
  }

  /** A key is throttled exactly when max failures stand in the window. */
  lemma ThrottledIff(p: Policy, ops: seq<Op>, at: int)
    ensures Throttled(p, ops, at) <==> |Standing(ops, at - p.window)| >= p.max
  {
    StandingCounted(ops, at - p.window);
  }

  /** The window only ever loses entries as time passes. */
  lemma {:induction false} CountAntitone(log: seq<int>, cut: int, later: int)
    requires cut <= later
    ensures Count(log, later) <= Count(log, cut)
  {
    if log != [] {
      CountAntitone(log[1..], cut, later);
    }
  }

  lemma {:induction false} CountAll(log: seq<int>, cut: int)
    requires forall i :: 0 <= i < |log| ==> log[i] > cut
    ensures Count(log, cut) == |log| && Kept(log, cut) == log
  {
    if log != [] {
      CountAll(log[1..], cut);
    }
  }

  ghost predicate Sorted(log: seq<int>) {
    forall i, j :: 0 <= i <= j < |log| ==> log[i] <= log[j]
  }

  lemma {:induction false} KeptSorted(log: seq<int>, cut: int)
    requires Sorted(log)
    ensures Sorted(Kept(log, cut))
  {
    if log != [] {
      KeptSorted(log[1..], cut);
      KeptLength(log[1..], cut);
    }
  }

  /** In a sorted log the entries after log[0] are a suffix: exactly those past the
      ones equal to log[0]. */
  lemma {:induction false} CountFromIndex(log: seq<int>, cut: int, n: nat)
    requires Sorted(log) && n <= |log|
    ensures Count(log, cut) < |log| - n + 1 <==> n == 0 || log[n - 1] <= cut
  {
    if n == 0 {
      KeptLength(log, cut);
      CountBound(log, cut);
    } else {
      CountSplit(log[..n], log[n..], cut);
      assert log[..n] + log[n..] == log;
      CountBound(log[n..], cut);
      CountBound(log[..n], cut);
      if log[n - 1] <= cut {
        CountNone(log[..n], cut);
      } else {
        CountAll(log[n..], cut);
        CountSplit(log[..n - 1], [log[n - 1]], cut);
        assert log[..n] == log[..n - 1] + [log[n - 1]];
      }
    }
  }

  lemma {:induction false} CountBound(log: seq<int>, cut: int)
    ensures Count(log, cut) <= |log|
  {
    if log != [] {
      CountBound(log[1..], cut);
    }
  }

  lemma {:induction false} CountNone(log: seq<int>, cut: int)
    requires forall i :: 0 <= i < |log| ==> log[i] <= cut
    ensures Count(log, cut) == 0
  {
    if log != [] {
      CountNone(log[1..], cut);
    }
  }

  lemma {:induction false} CountSplit(a: seq<int>, b: seq<int>, cut: int)
    ensures Count(a + b, cut) == Count(a, cut) + Count(b, cut)
  {
    if a == [] {
      assert a + b == b;
    } else {
      assert (a + b)[1..] == a[1..] + b;
      CountSplit(a[1..], b, cut);
    }
  }

  // ---------------------------------------------------------- throttle episodes

  /** Within one episode Refuse answers true at most once. */
  lemma OnceAtMost(p: Policy, ops: seq<Op>, i: nat, k: nat)
    requires i < k < |ops| && ops[i].Refuse? && ops[k].Refuse? && SameEpisode(p, ops, i, k)
    ensures !FirstRefusal(p, ops[..k], ops[k].at)
  {
    var before := ops[..k];
    assert SameEpisode(p, before, i, k - 1) by {
      forall m {:trigger before[m]} | i <= m <= k - 1 ensures !before[m].Reset? && Throttled(p, before[..m], before[m].at) {
        assert before[m] == ops[m] && before[..m] == ops[..m];
      }
    }
    assert before[i].Refuse?;
  }

  /** A refused attempt belongs to an episode in which Refuse did answer true, no later
      than at that attempt. */
  lemma {:induction false} OnceAtLeast(p: Policy, ops: seq<Op>, k: nat) returns (first: nat)
    requires k < |ops| && ops[k].Refuse? && Throttled(p, ops[..k], ops[k].at)
    ensures first <= k && ops[first].Refuse? && SameEpisode(p, ops, first, k)
    ensures FirstRefusal(p, ops[..first], ops[first].at)
  {
    first := k;
    var before := ops[..k];
    if Reported(p, before) {
      var j :| 0 <= j < |before| && before[j].Refuse? && SameEpisode(p, before, j, |before| - 1);
      assert SameEpisode(p, ops, j, k) by {
        forall m {:trigger ops[m]} | j <= m <= k ensures !ops[m].Reset? && Throttled(p, ops[..m], ops[m].at) {
          if m < k {
            assert before[m] == ops[m] && before[..m] == ops[..m];
          }
        }
      }
      assert ops[j] == before[j];
      first := OnceAtLeast(p, ops, j);
      assert forall m {:trigger ops[m]} :: first <= m <= k ==> (m <= j || j <= m);
    }
  }

  /** Nothing can be missed between two operations: if the later one finds the key
      throttled, it was throttled at every instant since the earlier one. */
  lemma ThrottledBetween(p: Policy, ops: seq<Op>, t: int, at: int)
    requires t <= at && Throttled(p, ops, at)
    ensures Throttled(p, ops, t)
  {
    CountAntitone(Failures(ops), t - p.window, at - p.window);
  }

  /** An episode has no gap in time: between two neighbouring operations of it the key was
      throttled at every instant. */
  lemma EpisodeHasNoGap(p: Policy, ops: seq<Op>, j: nat, i: nat, m: nat, t: int)
    requires SameEpisode(p, ops, j, i) && j <= m < i && ops[m].at <= t <= ops[m + 1].at
    ensures Throttled(p, ops[..m + 1], t)
  {
    hide Throttled;
    assert Throttled(p, ops[..m + 1], ops[m + 1].at);
    ThrottledBetween(p, ops[..m + 1], t, ops[m + 1].at);
  }

  // ------------------------------------------------------------- retry times

  /** The wait is measured to the moment the oldest kept failure leaves the window.
      Until then the key stays throttled; at that moment it is free exactly when all but
      max - 1 of the kept failures carry the same oldest time, which is always so while
      the key holds at most max of them. */
  lemma RetryExact(p: Policy, log: seq<int>, now: int)
    requires p.max >= 1 && Sorted(log) && Full(p, log, now)
    ensures var kept := Kept(log, now - p.window);
            && |kept| >= p.max
            && (forall t :: now <= t < kept[0] + p.window ==> Full(p, log, t))
            && (!Full(p, log, kept[0] + p.window) <==> kept[|kept| - p.max] == kept[0])
            && (|kept| == p.max ==> !Full(p, log, kept[0] + p.window))
  {
    hide Kept; hide Count; hide Sorted;
    var cut := now - p.window;
    var kept := Kept(log, cut);
    KeptLength(log, cut);
    KeptSorted(log, cut);
    assert forall i :: 0 <= i < |kept| ==> kept[0] <= kept[i] by { SortedFirst(kept); }
    forall t | now <= t < kept[0] + p.window ensures Full(p, log, t) {
      CountOfKept(log, cut, t - p.window);
      CountAll(kept, t - p.window);
    }
    CountOfKept(log, cut, kept[0]);
    CountFromIndex(kept, kept[0], |kept| - p.max + 1);
  }

  lemma SortedFirst(log: seq<int>)
    requires Sorted(log)
    ensures forall i :: 0 <= i < |log| ==> log[0] <= log[i]
  {
  }

  /** Dropping what has left the window loses no later count. */
  lemma CountOfKept(log: seq<int>, cut: int, later: int)
    requires cut <= later
    ensures Count(Kept(log, cut), later) == Count(log, later)
  {
    KeptTwice(log, cut, later);
    KeptLength(log, later);
    KeptLength(Kept(log, cut), later);
  }

  /** A key that holds more than max failures is promised too short a wait: failures at 0, 3
      and 4 with max = 2. */
  lemma RetryTooShort()
    ensures var p, log := Policy(2, 10), [0, 3, 4];
            Count(log, 5 - p.window) == 3 && Count(log, Kept(log, 5 - p.window)[0]) == p.max
  {
    var log := [0, 3, 4];
    assert log[1..] == [3, 4] && log[1..][1..] == [4] && log[1..][1..][1..] == [];
    assert Count(log[1..][1..], -5) == 1 && Count(log[1..], -5) == 2;
    assert Count(log[1..][1..], 0) == 1 && Count(log[1..], 0) == 2;
  }

  /** The header value: the wait in whole seconds, rounded up, never below one. Go's
      division truncates toward zero, which matters for an already elapsed wait. */
  function RetryAfterSeconds(wait: int): (secs: int)
    ensures secs >= 1 && secs * SECOND >= wait && (secs == 1 || (secs - 1) * SECOND < wait)
  {
    var up := wait + SECOND - 1;
    var secs := if up >= 0 then up / SECOND else -((-up) / SECOND);
    if secs < 1 then 1 else secs
  }

  // ------------------------------------------------------------- the limiter

  /** A limiter's fields, with the history they must agree with and the last clock read. */
  datatype Memory = Memory(policy: Policy, attempts: map<string, seq<int>>, refused: set<string>,
                           ops: map<string, seq<Op>>, clock: int) {

    ghost function Stored(key: string): seq<int> {
      if key in attempts then attempts[key] else []
    }

    ghost function Ops(key: string): seq<Op> {
      if key in ops then ops[key] else []
    }

    /** Every failure of the key since its last Reset. */
    ghost function Log(key: string): seq<int> {
      Failures(Ops(key))
    }

    ghost predicate KeyOk(key: string) {
      && Kept(Stored(key), clock - policy.window) == Kept(Log(key), clock - policy.window)
      && Sorted(Log(key))
      && (forall t <- Log(key) :: t <= clock)
      && (key in refused <==> Reported(policy, Ops(key)))
      && (key in attempts ==> attempts[key] != [])
    }

    ghost predicate Valid() {
      policy.max >= 1 && forall key :: KeyOk(key)
    }

    /** Only `key` was touched: every other key kept its slice, its flag and its history. */
    ghost predicate OnlyKey(after: Memory, key: string) {
      && policy == after.policy
      && attempts - {key} == after.attempts - {key}
      && refused - {key} == after.refused - {key}
      && ops - {key} == after.ops - {key}
    }
  }

  lemma OtherKey(m: Memory, n: Memory, key: string, k: string)
    requires m.OnlyKey(n, key) && m.clock <= n.clock && k != key && m.KeyOk(k)
    ensures n.KeyOk(k)
  {
    hide Kept; hide Failures; hide Reported; hide Count; hide Sorted;
    assert k in n.attempts <==> k in n.attempts - {key};
    assert k in m.attempts <==> k in m.attempts - {key};
    assert k in n.refused <==> k in n.refused - {key};
    assert k in m.refused <==> k in m.refused - {key};
    assert k in n.ops <==> k in n.ops - {key};
    assert k in m.ops <==> k in m.ops - {key};
    var w := m.policy.window;
    KeptTwice(n.Stored(k), m.clock - w, n.clock - w);
    KeptTwice(n.Log(k), m.clock - w, n.clock - w);
  }

  /** An operation on `key` keeps the limiter right if it keeps that one key right. */
  lemma Done(m: Memory, n: Memory, key: string)
    requires m.Valid() && m.OnlyKey(n, key) && m.clock <= n.clock && n.KeyOk(key)
    ensures n.Valid()
  {
    forall k ensures n.KeyOk(k) {
      if k != key {
        assert m.KeyOk(k);
        OtherKey(m, n, key, k);
      }
    }
  }

  /** What pruning `key` at `now` and then recording `op` must leave behind. */
  ghost predicate Pruned(m: Memory, n: Memory, key: string, op: Op, now: int) {
    && m.OnlyKey(n, key) && n.Ops(key) == m.Ops(key) + [op] && m.clock <= now
    && (key in n.attempts ==> n.attempts[key] != [])
  }

  /** Pruning answers from what is left exactly as from the whole history. */
  lemma PruneAgrees(m: Memory, key: string, now: int)
    requires m.KeyOk(key) && m.clock <= now
    ensures var cut := now - m.policy.window;
            Kept(m.Stored(key), cut) == Kept(m.Log(key), cut) && |Kept(m.Log(key), cut)| == Count(m.Log(key), cut)
  {
    hide Kept; hide Failures; hide Reported; hide Count; hide Sorted;
    var w := m.policy.window;
    KeptTwice(m.Stored(key), m.clock - w, now - w);
    KeptTwice(m.Log(key), m.clock - w, now - w);
    KeptLength(m.Log(key), now - w);
  }

  /** Allow, RetryAfter and Refuse: prune, and perhaps raise the flag. */
  lemma AskedOk(m: Memory, n: Memory, key: string, op: Op)
    requires m.Valid() && (op.Ask? || op.Refuse?) && Pruned(m, n, key, op, op.at) && n.clock == op.at
    requires n.Stored(key) == Kept(m.Log(key), op.at - m.policy.window)
    requires key in n.refused <==> Full(m.policy, m.Log(key), op.at) && (op.Refuse? || key in m.refused)
    ensures n.Valid() && n.Log(key) == m.Log(key)
  {
    hide Kept; hide Failures; hide Reported; hide Count; hide Sorted;
    assert m.KeyOk(key);
    KeptTwice(m.Log(key), op.at - m.policy.window, op.at - m.policy.window);
    FailuresStep(m.Ops(key), op);
    ReportedStep(m.policy, m.Ops(key), op);
    Done(m, n, key);
  }

  lemma SortedAppend(log: seq<int>, t: int)
    requires Sorted(log) && forall x <- log :: x <= t
    ensures Sorted(log + [t])
  {
    forall i | 0 <= i < |log| ensures log[i] <= t {
      assert log[i] in log;
    }
  }

  lemma FailedOk(m: Memory, n: Memory, key: string, op: Op)
    requires m.Valid() && op.Fail? && Pruned(m, n, key, op, op.at) && op.at <= op.stamp == n.clock
    requires n.Stored(key) == Kept(m.Log(key), op.at - m.policy.window) + [op.stamp]
    requires key in n.refused <==> Full(m.policy, m.Log(key), op.at) && key in m.refused
    ensures n.Valid() && n.Log(key) == m.Log(key) + [op.stamp]
  {
    hide Kept; hide Failures; hide Reported; hide Count;
    assert m.KeyOk(key);
    var w := m.policy.window;
    KeptConcat(Kept(m.Log(key), op.at - w), [op.stamp], op.stamp - w);
    KeptConcat(m.Log(key), [op.stamp], op.stamp - w);
    KeptTwice(m.Log(key), op.at - w, op.stamp - w);
    FailuresStep(m.Ops(key), op);
    ReportedStep(m.policy, m.Ops(key), op);
    SortedAppend(m.Log(key), op.stamp);
    hide Sorted;
    Done(m, n, key);
  }

  lemma ResetOk(m: Memory, n: Memory, key: string)
    requires m.Valid() && m.OnlyKey(n, key) && n.clock == m.clock && n.Ops(key) == m.Ops(key) + [Reset]
    requires key !in n.attempts && key !in n.refused
    ensures n.Valid() && n.Log(key) == []
  {
    FailuresStep(m.Ops(key), Reset);
    ReportedStep(m.policy, m.Ops(key), Reset);
    Done(m, n, key);
  }

  class Limiter {
    const max: nat
    const window: int
    var attempts: map<string, seq<int>>
    var refused: set<string>
    ghost var ops: map<string, seq<Op>>
    ghost var clock: int

    ghost function M(): Memory
      reads this
    {
      Memory(Policy(max, window), attempts, refused, ops, clock)
    }

    ghost predicate Valid()
      reads this
    {
      M().Valid()
    }

    ghost function Log(key: string): seq<int>
      reads this
    {
      M().Log(key)
    }

    constructor (max: nat, window: int)
      requires max >= 1
      ensures Valid() && this.max == max && this.window == window && ops == map[]
    {
      this.max, this.window := max, window;
      attempts, refused, ops, clock := map[], {}, map[], 0;
    }

    /** prune: filter the slice in place, forget emptied keys and ended episodes. */
    method Prune(key: string, now: int) returns (kept: seq<int>)
      requires Valid() && clock <= now
      modifies this`attempts, this`refused
      ensures kept == Kept(Log(key), now - window) == M().Stored(key)
      ensures |kept| == Count(Log(key), now - window)
      ensures kept == Kept(old(M()).Stored(key), now - window)
      ensures key in attempts ==> attempts[key] != []
      ensures key in refused <==> old(key in refused) && |kept| >= max
      ensures old(M()).OnlyKey(M(), key)
    {
      hide Kept; hide Failures; hide Reported; hide Count; hide Sorted;
      assert M().KeyOk(key);
      PruneAgrees(M(), key, now);
      kept := Filter(if key in attempts then attempts[key] else [], now - window);
      if |kept| < max {
        refused := refused - {key};
      }
      if |kept| == 0 {
        attempts := attempts - {key};
      } else {
        attempts := attempts[key := kept];
      }
    }

    /** Allow: true exactly when the full history has fewer than max failures in the
        window, although most of that history has been dropped. */
    method Allow(key: string, now: int) returns (ok: bool)
      requires Valid() && clock <= now
      modifies this
      ensures Valid() && clock == now && old(M()).OnlyKey(M(), key)
      ensures M().Ops(key) == old(M()).Ops(key) + [Ask(now)] && Log(key) == old(Log(key))
      ensures ok <==> !Full(M().policy, Log(key), now)
      ensures ok <==> |Standing(old(M()).Ops(key), now - window)| < max
      ensures M().Stored(key) == Kept(old(M()).Stored(key), now - window) && ok == (|M().Stored(key)| < max)
    {
      hide Kept; hide Failures; hide Reported; hide Count; hide Sorted;
      ThrottledIff(M().policy, M().Ops(key), now);
      hide Standing;
      var kept := Prune(key, now);
      ok := |kept| < max;
      ops, clock := ops[key := M().Ops(key) + [Ask(now)]], now;
      AskedOk(old(M()), M(), key, Ask(now));
    }

    /** RetryAfter: `later` is the second clock read, taken after the pruning one. */
    method RetryAfter(key: string, now: int, later: int) returns (wait: int)
      requires Valid() && clock <= now <= later
      modifies this
      ensures Valid() && clock == now && old(M()).OnlyKey(M(), key)
      ensures M().Ops(key) == old(M()).Ops(key) + [Ask(now)] && Log(key) == old(Log(key))
      ensures !Full(M().policy, Log(key), now) ==> wait == 0
      ensures Full(M().policy, Log(key), now) ==>
                && (forall t :: now <= t < later + wait ==> Full(M().policy, Log(key), t))
                && (Count(Log(key), now - window) == max ==> !Full(M().policy, Log(key), later + wait))
                && var kept := Kept(Log(key), now - window); kept != [] && wait == kept[0] + window - later
    {
      hide Kept; hide Failures; hide Reported; hide Count; hide Sorted;
      assert M().KeyOk(key);
      var kept := Prune(key, now);
      if |kept| < max {
        wait := 0;
      } else {
        RetryExact(M().policy, Log(key), now);
        wait := kept[0] + window - later;
      }
      ops, clock := ops[key := M().Ops(key) + [Ask(now)]], now;
      AskedOk(old(M()), M(), key, Ask(now));
    }

    /** Fail: prune at the first clock read, then append the second. */
    method Fail(key: string, now: int, stamp: int)
      requires Valid() && clock <= now <= stamp
      modifies this
      ensures Valid() && clock == stamp && old(M()).OnlyKey(M(), key)
      ensures M().Ops(key) == old(M()).Ops(key) + [Op.Fail(now, stamp)] && Log(key) == old(Log(key)) + [stamp]
      ensures M().Stored(key) == Kept(old(M()).Stored(key), now - window) + [stamp]
    {
      hide Kept; hide Failures; hide Reported; hide Count; hide Sorted;
      var kept := Prune(key, now);
      attempts := attempts[key := kept + [stamp]];
      ops, clock := ops[key := M().Ops(key) + [Op.Fail(now, stamp)]], stamp;
      FailedOk(old(M()), M(), key, Op.Fail(now, stamp));
    }

    method Reset(key: string)
      requires Valid()
      modifies this
      ensures Valid() && clock == old(clock) && old(M()).OnlyKey(M(), key)
      ensures M().Ops(key) == old(M()).Ops(key) + [Op.Reset] && Log(key) == []
      ensures M().Stored(key) == []
    {
      hide Kept; hide Failures; hide Reported; hide Count; hide Sorted;
      attempts, refused := attempts - {key}, refused - {key};
      ops := ops[key := M().Ops(key) + [Op.Reset]];
      ResetOk(old(M()), M(), key);
    }

    /** Refuse: true exactly for the first refusal of a throttle episode. */
    method Refuse(key: string, now: int) returns (first: bool)
      requires Valid() && clock <= now
      modifies this
      ensures Valid() && clock == now && old(M()).OnlyKey(M(), key)
      ensures M().Ops(key) == old(M()).Ops(key) + [Op.Refuse(now)] && Log(key) == old(Log(key))
      ensures first <==> FirstRefusal(M().policy, old(M()).Ops(key), now)
      ensures M().Stored(key) == Kept(old(M()).Stored(key), now - window)
    {
      hide Kept; hide Failures; hide Reported; hide Count; hide Sorted;
      assert M().KeyOk(key);
      var kept := Prune(key, now);
      first := |kept| >= max && key !in refused;
      if first {
        refused := refused + {key};
      }
      ops, clock := ops[key := M().Ops(key) + [Op.Refuse(now)]], now;
      AskedOk(old(M()), M(), key, Op.Refuse(now));
    }
  }

  lemma KeptNext(log: seq<int>, i: nat, cut: int)
    requires i < |log|
    ensures Kept(log[..i + 1], cut) == Kept(log[..i], cut) + if log[i] > cut then [log[i]] else []
  {
    assert log[..i + 1] == log[..i] + [log[i]];
    KeptConcat(log[..i], [log[i]], cut);
  }

  /** The filter loop of prune, over the slice's own array: the write index never passes
      the read index, so no entry is lost before it is read. */
  method FilterInPlace(entries: array<int>, cutoff: int) returns (n: nat)
    modifies entries
    ensures n <= entries.Length && entries[..n] == Kept(old(entries[..]), cutoff)
  {
    n := 0;
    ghost var was := entries[..];
    assert Kept(was[..0], cutoff) == [];
    hide Kept;
    for i := 0 to entries.Length
      invariant n <= i
      invariant entries[..n] == Kept(was[..i], cutoff)
      invariant forall k :: i <= k < entries.Length ==> entries[k] == was[k]
    {
      var e := entries[i];
      KeptNext(was, i, cutoff);
      if e > cutoff {
        ghost var kept := entries[..n];
        entries[n] := e;
        n := n + 1;
        assert entries[..n] == kept + [e];
      }
    }
    assert was[..|was|] == was;
  }

  method Filter(entries: seq<int>, cutoff: int) returns (kept: seq<int>)
    ensures kept == Kept(entries, cutoff)
  {
    hide Kept;
    var slice := new int[|entries|](i requires 0 <= i < |entries| => entries[i]);
    assert slice[..] == entries;
    var n := FilterInPlace(slice, cutoff);
    kept := slice[..n];
  }

  lemma FailuresStep(ops: seq<Op>, op: Op)
    ensures Failures(ops + [op]) ==
            if op.Fail? then Failures(ops) + [op.stamp] else if op.Reset? then [] else Failures(ops)
  {
    assert (ops + [op])[..|ops|] == ops;
  }

  /** An episode does not depend on what comes after it. */
  lemma EpisodePrefix(p: Policy, ops: seq<Op>, op: Op, j: int, i: int)
    requires i < |ops|
    ensures SameEpisode(p, ops + [op], j, i) <==> SameEpisode(p, ops, j, i)
  {
    hide Throttled;
    var all := ops + [op];
    assert forall m {:trigger all[m]} {:trigger ops[m]} :: 0 <= m < |ops| ==> all[m] == ops[m] && all[..m] == ops[..m];
  }

  /** The last operation belongs to an episode that had begun before it. */
  lemma EpisodeGoesOn(p: Policy, ops: seq<Op>, op: Op, j: int)
    requires 0 <= j < |ops|
    ensures SameEpisode(p, ops + [op], j, |ops|) <==>
            SameEpisode(p, ops, j, |ops| - 1) && !op.Reset? && Throttled(p, ops, op.at)
  {
    hide Throttled;
    var all, n := ops + [op], |ops|;
    assert all[..n] == ops && all[n] == op;
    EpisodePrefix(p, ops, op, j, n - 1);
    assert forall m {:trigger all[m]} :: j <= m <= n ==> m == n || m <= n - 1;
  }

  /** How an operation carries the episode on. */
  lemma ReportedStep(p: Policy, ops: seq<Op>, op: Op)
    ensures Reported(p, ops + [op]) <==> !op.Reset? && Throttled(p, ops, op.at) && (op.Refuse? || Reported(p, ops))
  {
    var all, n := ops + [op], |ops|;
    assert all[..n] == ops && all[n] == op;
    assert forall j {:trigger all[j]} {:trigger ops[j]} :: 0 <= j < n ==> all[j] == ops[j];
    assert SameEpisode(p, all, n, n) <==> !op.Reset? && Throttled(p, ops, op.at);
    hide Throttled; hide SameEpisode;
    forall j | 0 <= j < n
      ensures SameEpisode(p, all, j, n) <==> SameEpisode(p, ops, j, n - 1) && !op.Reset? && Throttled(p, ops, op.at)
    {
      EpisodeGoesOn(p, ops, op, j);
    }
    if Reported(p, all) {
      var j :| 0 <= j < |all| && all[j].Refuse? && SameEpisode(p, all, j, n);
      assert j < n ==> ops[j].Refuse? && SameEpisode(p, ops, j, n - 1);
    }
    if !op.Reset? && Throttled(p, ops, op.at) {
      if op.Refuse? {
        assert all[n].Refuse? && SameEpisode(p, all, n, n);
      } else if Reported(p, ops) {
        var j :| 0 <= j < |ops| && ops[j].Refuse? && SameEpisode(p, ops, j, n - 1);
        assert all[j].Refuse? && SameEpisode(p, all, j, n);
      }
    }
  }
}
