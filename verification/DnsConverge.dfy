/** When the DNS reconciler gets there. Over the machine of `Dns`: which tombstones can still
    be reaped, which steps put one out of reach, and which wanted records can still appear,
    each as an exact condition on the state. */
module DnsConverge {
  import opened Common
  import opened Dns

  // ------------------------------------------------------------------ continuations

  /** The sweeper's own steps: no statement changes a row's wish, and nobody edits the zone. */
  predicate IsSweep(e: Event) { !e.Upsert? && !e.Tombstone? && !e.Operator? }

  ghost predicate Sweeping(events: seq<Event>) { forall i :: 0 <= i < |events| ==> IsSweep(events[i]) }

  function ExecFrom(s: State, events: seq<Event>): State {
    if events == [] then s else Step(ExecFrom(s, events[..|events| - 1]), events[|events| - 1])
  }

  lemma {:induction false} ExecConcat(s: State, a: seq<Event>, b: seq<Event>)
    ensures ExecFrom(s, a + b) == ExecFrom(ExecFrom(s, a), b)
  {
    hide Step;
    if b == [] {
      assert a + b == a;
    } else {
      assert (a + b)[..|a + b| - 1] == a + b[..|b| - 1];
      ExecConcat(s, a, b[..|b| - 1]);
    }
  }

  lemma {:induction false} ExecIs(events: seq<Event>)
    ensures ExecFrom(START, events) == Exec(events)
  {
    hide Step;
    if events != [] {
      ExecIs(events[..|events| - 1]);
    }
  }

  lemma ExecOn(events: seq<Event>, more: seq<Event>)
    ensures Exec(events + more) == ExecFrom(Exec(events), more)
  {
    ExecIs(events);
    ExecIs(events + more);
    ExecConcat(START, events, more);
    hide Exec; hide ExecFrom;
  }

  /** Some sweeper-only continuation of `s` ends in `t`. */
  ghost predicate Leads(s: State, t: State) {
    exists events :: Sweeping(events) && ExecFrom(s, events) == t
  }

  lemma LeadsStep(s: State, t: State, e: Event)
    requires Leads(s, t) && IsSweep(e)
    ensures Leads(s, Step(t, e))
  {
    hide Step; hide IsSweep;
    var events :| Sweeping(events) && ExecFrom(s, events) == t;
    var longer := events + [e];
    assert longer[..|longer| - 1] == events;
    assert Sweeping(longer) && ExecFrom(s, longer) == Step(t, e);
  }

  lemma LeadsSelf(s: State)
    ensures Leads(s, s)
  {
    assert Sweeping([]) && ExecFrom(s, []) == s;
  }

  // ---------------------------------------------------------------------- queued rows

  /** A queued row always has a next attempt: whatever clears it takes it off the queue. */
  ghost predicate Armed(s: State) {
    forall i :: 0 <= i < |s.queue| ==> s.queue[i].id in s.rows && s.rows[s.queue[i].id].next.Some?
  }

  lemma RowArmed(s: State, e: Event)
    requires Sound(s) && Armed(s) && (e.Upsert? || e.Tombstone?)
    ensures Armed(Step(s, e))
  {
    hide Fresh; hide InPhase; hide Ours; hide Accounted;
    var t := Step(s, e);
    assert t.queue == s.queue;
    assert forall k :: k in s.rows ==> k in t.rows && (s.rows[k].next.Some? ==> t.rows[k].next.Some?);
    hide Step;
  }

  lemma CallArmed(s: State, e: Event)
    requires Sound(s) && Armed(s) && (e.Operator? || e.Find? || e.Create? || e.Update? || e.Delete? || e.CallError? || e.Crash?)
    ensures Armed(Step(s, e))
  {
    hide Sound;
    var t := Step(s, e);
    assert t.rows == s.rows && (t.queue == s.queue || t.queue == []);
    hide Step;
  }

  lemma ListArmed(s: State, e: Event)
    requires Sound(s) && Armed(s) && e.List?
    ensures Armed(Step(s, e))
  {
    hide Fresh; hide InPhase; hide Ours; hide Accounted;
    var t := Step(s, e);
    if t != s {
      forall i | 0 <= i < |t.queue| ensures t.queue[i].id in t.rows && t.rows[t.queue[i].id].next.Some? {
        assert t.queue[i] == s.rows[e.picked[i]] && Due(s.rows[e.picked[i]], e.now);
      }
    }
  }

  lemma WriteArmed(s: State, e: Event)
    requires Sound(s) && Armed(s) && (e.Mark? || e.Drop? || e.Fail?)
    ensures Armed(Step(s, e))
  {
    var t := Step(s, e);
    if s.queue == [] {
      assert t == s;
    } else {
      HeadOnly(s, e);
      hide Step;
      forall i | 0 <= i < |t.queue| ensures t.queue[i].id in t.rows && t.rows[t.queue[i].id].next.Some? {
        if t.queue == s.queue[1..] {
          assert t.queue[i] == s.queue[i + 1] && s.queue[i + 1].id != Head(s).id;
        } else {
          assert t.queue == s.queue && t.rows == s.rows;
        }
      }
    }
  }

  /** A write either only moves the phase, or takes the head off the queue and changes no
      other row. */
  lemma HeadOnly(s: State, e: Event)
    requires Sound(s) && s.queue != [] && (e.Mark? || e.Drop? || e.Fail?)
    ensures var t := Step(s, e);
            && t.zone == s.zone && t.used == s.used
            && ((t.queue == s.queue && t.rows == s.rows && (t.phase == s.phase || t.phase.Failing?))
                || (t.queue == s.queue[1..] && t.phase.Begin?
                    && forall k :: k != Head(s).id ==> (k in t.rows <==> k in s.rows) && (k in s.rows ==> t.rows[k] == s.rows[k])))
  {
    HeadFacts(s);
    hide Sound; hide Backoff;
  }

  ghost predicate Steady(s: State) { Sound(s) && Armed(s) }

  lemma StepSteady(s: State, e: Event)
    requires Steady(s)
    ensures Steady(Step(s, e))
  {
    StepSound(s, e);
    hide Sound; hide Step; hide Armed;
    if e.Upsert? || e.Tombstone? {
      RowArmed(s, e);
    } else if e.List? {
      ListArmed(s, e);
    } else if e.Mark? || e.Drop? || e.Fail? {
      WriteArmed(s, e);
    } else {
      CallArmed(s, e);
    }
  }

  lemma {:induction false} RunSteady(events: seq<Event>)
    ensures Steady(Exec(events))
  {
    if events == [] {
      RunSound(events);
    } else {
      RunSteady(events[..|events| - 1]);
      hide Steady; hide Step;
      StepSteady(Exec(events[..|events| - 1]), events[|events| - 1]);
    }
  }

  lemma {:induction false} LeadsSteady(s: State, events: seq<Event>)
    requires Steady(s)
    ensures Steady(ExecFrom(s, events))
  {
    if events != [] {
      LeadsSteady(s, events[..|events| - 1]);
      hide Steady; hide Step;
      StepSteady(ExecFrom(s, events[..|events| - 1]), events[|events| - 1]);
    }
  }

  // -------------------------------------------------------------------- reaping tombstones

  /** A tombstone that stores a record id is out of reach exactly when it has no next attempt. */
  lemma SettledIsUnarmed(s: State, k: nat, rid: Rid)
    requires Steady(s) && k in s.rows && !s.rows[k].present && s.rows[k].rid == Some(rid)
    ensures Settled(s, k, rid) <==> s.rows[k].next.None?
  {
    hide Sound;
    assert forall i :: 0 <= i < |s.queue| && s.queue[i].id == k ==> s.rows[k].next.Some?;
  }

  ghost predicate NoWish(events: seq<Event>, k: nat) {
    forall i :: 0 <= i < |events| ==> !(events[i].Upsert? && events[i].id == k)
  }

  /** The sweep of one tombstone. */
  function ReapRun(k: nat, now: int): seq<Event> {
    [Crash] + [List([k], now)] + [Delete(Reply.Ok)] + [Drop(true)]
  }

  lemma Then(s: State, events: seq<Event>, e: Event)
    ensures ExecFrom(s, events + [e]) == Step(ExecFrom(s, events), e)
  {
    assert (events + [e])[..|events|] == events;
  }

  lemma Chain(s: State, a: Event, b: Event, c: Event, d: Event)
    ensures ExecFrom(s, [a] + [b] + [c] + [d]) == Step(Step(Step(Step(s, a), b), c), d)
  {
    assert ExecFrom(s, []) == s && [] + [a] == [a];
    hide Step; hide ExecFrom;
    Then(s, [], a);
    Then(s, [a], b);
    Then(s, [a] + [b], c);
    Then(s, [a] + [b] + [c], d);
  }

  /** An idle sweeper reaps a tombstone that has a next attempt. */
  lemma ReapIdle(s: State, k: nat, now: int)
    requires Tidy(s) && s.queue == [] && s.phase.Begin? && k in s.rows && !s.rows[k].present && s.rows[k].rid.Some?
    requires s.rows[k].next.Some? && s.rows[k].next.value <= now
    ensures Step(Step(Step(s, List([k], now)), Delete(Reply.Ok)), Drop(true)) ==
            s.(rows := s.rows - {k}, zone := s.zone - {s.rows[k].rid.value})
  {
    var s1 := Step(s, List([k], now));
    assert s1 == s.(queue := [s.rows[k]]);
    var s2 := Step(s1, Delete(Reply.Ok));
    assert s2 == s1.(zone := s.zone - {s.rows[k].rid.value}, phase := Gone);
    assert Step(s2, Drop(true)).queue == [];
  }

  lemma Reaped(s: State, k: nat, rid: Rid)
    requires Sound(s) && k in s.rows && !s.rows[k].present && s.rows[k].rid == Some(rid) && s.rows[k].next.Some?
    ensures var t := ExecFrom(s, ReapRun(k, s.rows[k].next.value)); k !in t.rows && rid !in t.zone
    ensures NoWish(ReapRun(k, s.rows[k].next.value), k)
  {
    var now := s.rows[k].next.value;
    Chain(s, Crash, List([k], now), Delete(Reply.Ok), Drop(true));
    var d := Step(s, Crash);
    assert d.rows == s.rows && d.ids == s.ids && d.zone == s.zone && d.used == s.used && d.queue == [] && d.phase.Begin?;
    assert Tidy(d);
    ReapIdle(d, k, now);
  }

  /** For every reachable tombstone that stores a record id: some continuation in which its
      name is not wanted again removes the record and then the row, exactly when the
      tombstone is not settled. */
  lemma ReapableIff(events: seq<Event>, k: nat, rid: Rid)
    requires k in Exec(events).rows && !Exec(events).rows[k].present && Exec(events).rows[k].rid == Some(rid)
    ensures (exists more :: NoWish(more, k) && k !in Exec(events + more).rows && rid !in Exec(events + more).zone) <==>
            !Settled(Exec(events), k, rid)
  {
    var s := Exec(events);
    RunSteady(events);
    SettledIsUnarmed(s, k, rid);
    if Settled(s, k, rid) {
      assert k in s.ids && Absent(s, k);
      forall more | NoWish(more, k) ensures k in Exec(events + more).rows {
        StaysPut(events, more, k, rid);
      }
    } else {
      Reaped(s, k, rid);
      ExecOn(events, ReapRun(k, s.rows[k].next.value));
    }
  }

  lemma StaysPut(events: seq<Event>, more: seq<Event>, k: nat, rid: Rid)
    requires Settled(Exec(events), k, rid) && k in Exec(events).ids && Absent(Exec(events), k) && NoWish(more, k)
    ensures k in Exec(events + more).rows && Settled(Exec(events + more), k, rid)
  {
    hide Exec; hide Settled;
    forall i | 0 <= i < |more| ensures !Reburies(Exec(events + more[..i]), more[i], k) {
      var init := more[..i];
      assert forall j :: 0 <= j < |init| ==> init[j] == more[j];
      AbsentStays(events, init, k);
    }
    NeverConvergedAgain(events, more, k, rid);
    SettledRow(Exec(events + more), k, rid);
  }

  /** The step that puts a tombstone out of reach is the mark of its record, or the eighth
      failure of its turn. */
  ghost predicate PutsAway(s: State, e: Event, k: nat, rid: Rid) {
    && s.queue != [] && Head(s).id == k && k in s.rows && !s.rows[k].present
    && ((e == Mark(true) && Marking(s) == Some(rid))
        || (e.Fail? && e.ok && s.phase.Failing? && s.rows[k].rid == Some(rid) && Head(s).attempt + 1 >= 8))
  }

  ghost predicate Lost(s: State, k: nat, rid: Rid) { Settled(s, k, rid) && !s.rows[k].present }

  lemma PutAwayIff(events: seq<Event>, e: Event, k: nat, rid: Rid)
    ensures (Lost(Step(Exec(events), e), k, rid) && !Lost(Exec(events), k, rid)) <==> PutsAway(Exec(events), e, k, rid)
  {
    var s := Exec(events);
    RunSteady(events);
    StepSteady(s, e);
    hide Exec;
    UnarmedIff(s, k, rid);
    UnarmedIff(Step(s, e), k, rid);
    hide Lost; hide Steady;
    if e.Mark? || e.Fail? {
      WriteUnarms(s, e, k, rid);
    } else {
      OtherUnarms(s, e, k, rid);
    }
  }

  ghost predicate Unarmed(s: State, k: nat, rid: Rid) {
    k in s.rows && !s.rows[k].present && s.rows[k].rid == Some(rid) && s.rows[k].next.None?
  }

  lemma UnarmedIff(s: State, k: nat, rid: Rid)
    requires Steady(s)
    ensures Lost(s, k, rid) <==> Unarmed(s, k, rid)
  {
    if k in s.rows && !s.rows[k].present && s.rows[k].rid == Some(rid) {
      SettledIsUnarmed(s, k, rid);
    }
    hide Steady;
  }

  lemma WriteUnarms(s: State, e: Event, k: nat, rid: Rid)
    requires Steady(s) && (e.Mark? || e.Fail?)
    ensures (Unarmed(Step(s, e), k, rid) && !Unarmed(s, k, rid)) <==> PutsAway(s, e, k, rid)
  {
    if s.queue != [] {
      FreshFacts(s);
      HeadFacts(s);
      assert s.rows[s.queue[0].id].next.Some?;
    }
    hide Steady; hide Backoff;
  }

  lemma OtherUnarms(s: State, e: Event, k: nat, rid: Rid)
    requires Steady(s) && !e.Mark? && !e.Fail?
    ensures Unarmed(Step(s, e), k, rid) ==> Unarmed(s, k, rid)
  {
    assert Tidy(s);
    hide Fresh; hide InPhase; hide Ours; hide Accounted; hide Armed;
  }

  // ---------------------------------------------------------------- wanted rows are due

  /** The row is wanted and its attempt is due now, whatever failed before. */
  ghost predicate WantedNow(s: State, k: nat, now: int) {
    k in s.rows && s.rows[k].present && s.rows[k].attempt == 0 && s.rows[k].next.Some? && s.rows[k].next.value <= now
  }

  /** A statement of a sweep's first half that leaves the wish for `k` standing. */
  predicate Upholds(e: Event, k: nat, now: int) {
    (e.Upsert? && (e.id == k ==> e.now <= now)) || (e.Tombstone? && k !in e.which)
  }

  lemma UpheldStep(s: State, e: Event, k: nat, now: int)
    requires Tidy(s) && WantedNow(s, k, now) && Upholds(e, k, now)
    ensures WantedNow(Step(s, e), k, now)
  {
  }

  lemma {:induction false} UpheldRun(events: seq<Event>, desired: seq<Event>, k: nat, now: int)
    requires WantedNow(Exec(events), k, now) && forall i :: 0 <= i < |desired| ==> Upholds(desired[i], k, now)
    ensures WantedNow(Exec(events + desired), k, now)
  {
    hide Step; hide WantedNow; hide Exec; hide Upholds;
    var all := events + desired;
    if desired == [] {
      assert all == events;
    } else {
      var init := desired[..|desired| - 1];
      assert all[..|all| - 1] == events + init && all[|all| - 1] == desired[|desired| - 1];
      UpheldRun(events, init, k, now);
      RunSound(events + init);
      hide Fresh; hide InPhase; hide Ours; hide Accounted; hide Tidy;
      UpheldStep(Exec(events + init), desired[|desired| - 1], k, now);
      ExecSplits(all);
    }
  }

  /** The backoff and the limit of eight never bind a wanted row: whatever its attempts so
      far, once a sweep's first half upserts it and nothing after buries it, it is due in
      that sweep while it stores no id. */
  lemma WantedIsDue(events: seq<Event>, e: Event, rest: seq<Event>, k: nat, now: int)
    requires k in Exec(events).rows && e.Upsert? && e.id == k && e.key == Exec(events).rows[k].key && e.now <= now
    requires forall i :: 0 <= i < |rest| ==> Upholds(rest[i], k, now)
    ensures var s := Exec(events + [e] + rest); WantedNow(s, k, now) && (s.rows[k].rid.None? ==> Due(s.rows[k], now))
  {
    RunSound(events);
    ExecSnoc(events, e);
    assert WantedNow(Exec(events + [e]), k, now) by { hide Fresh; hide InPhase; hide Ours; hide Accounted; hide Exec; }
    hide Exec; hide Upholds;
    UpheldRun(events + [e], rest, k, now);
  }
}
