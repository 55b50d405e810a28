/** The collector's buckets over time (agent/metrics/collector.go): one bucket for each
    interval, and no more dropped than must be. */
module BacklogRuns {
  import opened Common
  import opened Backlog

  // ------------------------------------------------------------------ intervals

  predicate Times(n: int, d: int, k: int) { n == k * d }

  lemma FloorIs(at: nat, seconds: int)
    requires seconds > 0
    ensures Floor(at, seconds) <= at < Floor(at, seconds) + seconds * 1_000_000_000
    ensures Times(Floor(at, seconds), seconds * 1_000_000_000, at / (seconds * 1_000_000_000))
  {
  }

  lemma FloorMonotone(a: nat, b: nat, seconds: int)
    requires a <= b
    ensures Floor(a, seconds) <= Floor(b, seconds)
  {
    if seconds > 0 {
      var d := seconds * SECOND;
      Quotients(a / d, b / d, a % d, b % d, d);
    }
  }

  lemma Quotients(x: int, y: int, r: int, q: int, d: int)
    requires 0 <= r && 0 <= q < d && x * d + r <= y * d + q
    ensures x * d <= y * d
  {
    if x > y {
      AtLeastOnce(x - y, d);
    } else if x < y {
      AtLeastOnce(y - x, d);
    }
  }

  lemma {:induction false} AtLeastOnce(z: int, d: int)
    requires z >= 1 && d > 0
    ensures z * d >= d
  {
    if z > 1 {
      AtLeastOnce(z - 1, d);
      assert z * d == (z - 1) * d + d;
    }
  }

  /** Whatever a bucket holds was counted between its start, a whole number of intervals
      after the zero time, and the next one. */
  lemma InsideInterval(events: seq<Event>, b: Bucket, i: nat)
    requires Present(Exec(events), b) && i < |b.items| && b.seconds > 0
    ensures b.start <= b.items[i].at < b.start + b.seconds * 1_000_000_000
    ensures exists k :: Times(b.start, b.seconds * 1_000_000_000, k)
  {
    hide Exec; hide Floor;
    InItsInterval(events, b);
    FloorIs(b.items[i].at, b.seconds);
  }

  // ----------------------------------------------------------- one bucket an interval

  /** The clock does not go back, and the length of a bucket is always the same. */
  ghost predicate Timed(events: seq<Event>, seconds: int, clock: nat) {
    && (forall i :: 0 <= i < |events| && Reads(events[i]) ==> events[i].seconds == seconds && events[i].at <= clock)
    && (forall i, j :: 0 <= i < j < |events| && Reads(events[i]) && Reads(events[j]) ==> events[i].at <= events[j].at)
  }

  predicate Reads(e: Event) { e.Fold? || e.SealBegin? }

  /** The buckets so far begin one after the other, the open one last. */
  ghost predicate Apart(s: State, seconds: int, clock: nat) {
    && (s.open.Some? ==> s.open.value.seconds == seconds && s.open.value.start <= Floor(clock, seconds))
    && (forall b :: IsSealed(s, b) ==> s.open.Some? && b.start < s.open.value.start && b.serial < s.open.value.serial)
    && (forall b, c :: IsSealed(s, b) && IsSealed(s, c) && b.serial < c.serial ==> b.start < c.start)
  }

  /** A turn of the sealer that reads no clock leaves the open bucket alone. */
  lemma QuietStep(s: State, e: Event)
    requires !Reads(e)
    ensures Step(s, e).open == s.open
  {
  }

  /** What a step that reads the clock does to the open bucket. */
  lemma OpenStep(s: State, e: Event)
    requires Reads(e) && (e.SealBegin? ==> !s.sealing)
    ensures var t, start := Step(s, e), Floor(e.at, e.seconds);
            && t.open.Some? && t.open.value.start == start && t.open.value.seconds == e.seconds
            && if s.open.Some? && s.open.value.start == start && s.open.value.seconds == e.seconds
               then t.open.value.serial == s.open.value.serial
               else t.open.value.serial == s.made
  {
    hide Floor; hide Trim;
    TrimOpen(s.(backlog := s.backlog + OpenSeq(s), open := None));
  }

  /** An unchanged place in the numbering means that nothing more was sealed. */
  lemma KeptOpenSeals(s: State, e: Event, b: Bucket)
    requires Reads(e) && (e.SealBegin? ==> !s.sealing && s.todo == []) && s.open.Some?
    requires s.open.value.start == Floor(e.at, e.seconds) && s.open.value.seconds == e.seconds
    requires IsSealed(Step(s, e), b)
    ensures IsSealed(s, b)
  {
    hide Floor;
  }

  lemma SealedBelow(s: State, b: Bucket)
    requires Ordered(s) && IsSealed(s, b)
    ensures b.serial < Mark(s)
  {
    assert Line(s);
    hide Rising; hide Before;
    if b in s.dropped {
      InBelow(s.dropped, Mark(s), b);
    } else if b in s.published {
      InBelow(s.published, Mark(s), b);
    } else if b in s.unsent {
      InBelow(s.unsent, Mark(s), b);
    } else if b in s.todo {
      InBelow(s.todo, Mark(s), b);
    } else {
      InBelow(s.backlog, Mark(s), b);
    }
  }

  lemma InBelow(bs: seq<Bucket>, n: nat, b: Bucket)
    requires Below(bs, n) && b in bs
    ensures b.serial < n
  {
  }

  lemma StepApart(s: State, e: Event, seconds: int, clock: nat, now: nat)
    requires Ordered(s) && Apart(s, seconds, clock) && clock <= now
    requires Reads(e) ==> e.seconds == seconds && clock <= e.at == now
    ensures Apart(Step(s, e), seconds, now)
  {
    var t := Step(s, e);
    assert !s.sealing ==> s.todo == [];
    StepFinal(s, e);
    FloorMonotone(clock, now, seconds);
    if !Reads(e) || (e.SealBegin? && s.sealing) {
      if Reads(e) {
        assert t == s;
      } else {
        QuietStep(s, e);
      }
      hide Step; hide Floor; hide IsSealed; hide Ordered;
    } else {
      OpenStep(s, e);
      StepOrdered(s, e);
      forall b | IsSealed(t, b) ensures b.serial < t.open.value.serial { SealedBelow(t, b); }
      if s.open.Some? && s.open.value.start == Floor(e.at, e.seconds) && s.open.value.seconds == e.seconds {
        forall b | IsSealed(t, b) ensures IsSealed(s, b) { KeptOpenSeals(s, e, b); }
      }
      hide Step; hide Floor; hide IsSealed; hide Ordered;
    }
  }

  lemma {:induction false} RunApart(events: seq<Event>, seconds: int, clock: nat)
    requires Timed(events, seconds, clock)
    ensures Apart(Exec(events), seconds, clock)
  {
    if events != [] {
      var init, e := events[..|events| - 1], events[|events| - 1];
      var was := if Reads(e) then e.at else clock;
      assert Timed(init, seconds, was);
      RunApart(init, seconds, was);
      AlwaysOrdered(init);
      hide Step; hide Apart; hide Ordered;
      StepApart(Exec(init), e, seconds, was, was);
      assert Apart(Exec(events), seconds, was);
      ApartLater(Exec(events), seconds, was, clock);
    }
  }

  lemma ApartLater(s: State, seconds: int, clock: nat, later: nat)
    requires Apart(s, seconds, clock) && clock <= later
    ensures Apart(s, seconds, later)
  {
    FloorMonotone(clock, later, seconds);
  }

  /** While the clock does not go back and the interval stays the same there is one bucket
      for each interval: of two buckets the one made later begins later. */
  lemma OneBucketPerInterval(events: seq<Event>, seconds: int, clock: nat, b: Bucket, c: Bucket)
    requires Timed(events, seconds, clock) && Present(Exec(events), b) && Present(Exec(events), c)
    ensures b.serial < c.serial ==> b.start < c.start
    ensures b.start == c.start ==> b == c
  {
    RunApart(events, seconds, clock);
    if b.serial == c.serial {
      OneOfEach(events, b, c);
    }
    hide Exec; hide IsSealed;
  }

  // -------------------------------------------------------------------------- drops

  /** In every run a step that drops buckets leaves the backlog full: what is dropped is
      the excess over twelve and nothing more. */
  lemma DropsOnlyTheExcess(events: seq<Event>, e: Event)
    ensures var s, t := Exec(events), Exec(events + [e]);
            && s.dropped <= t.dropped
            && (t.dropped != s.dropped ==> |t.backlog| == 12 || (e.SealBegin? && |t.todo| == 12))
  {
    var s := Exec(events);
    NothingLost(events, 0, Item(0, 0, 0));
    assert (events + [e])[..|events|] == events;
    assert Exec(events + [e]) == Step(s, e);
    hide Exec;
    StepFinal(s, e);
    hide Floor; hide IsSealed;
    if Reads(e) && (e.SealBegin? ==> !s.sealing) {
      RotateDrops(s, e.at, e.seconds);
      hide Rotated;
    } else {
      TrimDrops(s.(sealing := false, unsent := [], backlog := s.unsent + s.backlog));
      hide Trim; hide Rotated;
    }
  }

  lemma TrimDrops(s: State)
    ensures Trim(s).dropped != s.dropped ==> |Trim(s).backlog| == 12
  {
  }

  lemma RotateDrops(s: State, at: nat, seconds: int)
    ensures Rotated(s, at, seconds).dropped != s.dropped ==> |Rotated(s, at, seconds).backlog| == 12
  {
    TrimDrops(s.(backlog := s.backlog + OpenSeq(s), open := None));
    hide Trim; hide Floor;
  }
}
