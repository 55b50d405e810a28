/** Runs on which the reconciler does not get there: two ways for a changed address to be
    lost and two for a tombstone's record to be left behind. */
module DnsRoutes {
  import opened Common
  import opened Dns
  import opened DnsConverge
  import opened DnsWanted

  /** A first creation, up to its mark. */
  function Creation(key: string, content: string): seq<Event> {
    [Upsert(0, key, content, 0)] + [List([0], 0)] + [Find(None)] + [Create(0, Reply.Ok)]
  }

  function Fresh0(key: string, content: string): Row { Row(0, key, content, true, None, 0, Some(0)) }

  lemma Created0(key: string, content: string)
    ensures Exec(Creation(key, content)) ==
            State(map[0 := Fresh0(key, content)], {0}, map[0 := Rec(key, content)], {0}, [Fresh0(key, content)], Made(0),
                  map[0 := Created], {})
  {
    var e1 := [Upsert(0, key, content, 0)];
    ExecSnoc([], Upsert(0, key, content, 0));
    assert [] + e1 == e1;
    ExecSnoc(e1, List([0], 0));
    ExecSnoc(e1 + [List([0], 0)], Find(None));
    ExecSnoc(e1 + [List([0], 0)] + [Find(None)], Create(0, Reply.Ok));
    CreationRun(key, content);
    hide Step;
  }

  /** Route one: the record is created and marked, then the address changes. */
  lemma ChangeAfterMark(key: string, a: string, b: string)
    requires a != b
    ensures var s := Exec(Creation(key, a) + [Mark(true)] + [Upsert(0, key, b, 1)]);
            && 0 in s.rows && s.rows[0].present && Wanted(s.rows[0]) == Rec(key, b) && s.zone == map[0 := Rec(key, a)]
            && !Can(s, 0)
  {
    var c := Creation(key, a);
    Created0(key, a);
    ExecSnoc(c, Mark(true));
    ExecSnoc(c + [Mark(true)], Upsert(0, key, b, 1));
    var s := Exec(c);
    hide Exec; hide Creation;
    var t := Step(s, Mark(true));
    assert t.rows == map[0 := Fresh0(key, a).(rid := Some(0), next := None)] && t.zone == s.zone;
  }

  /** Route two: the address changes while the row is queued for its first creation. */
  lemma ChangeWhileQueued(key: string, a: string, b: string)
    requires a != b
    ensures var events := [Upsert(0, key, a, 0)] + [List([0], 0)] + [Upsert(0, key, b, 1)] + [Find(None)]
                          + [Create(0, Reply.Ok)] + [Mark(true)];
            var s := Exec(events);
            && 0 in s.rows && s.rows[0].present && Wanted(s.rows[0]) == Rec(key, b) && s.zone == map[0 := Rec(key, a)]
            && Settled(s, 0, 0) && !Can(s, 0)
  {
    var e1 := [Upsert(0, key, a, 0)];
    var e2 := e1 + [List([0], 0)];
    var e3 := e2 + [Upsert(0, key, b, 1)];
    var e4 := e3 + [Find(None)];
    var e5 := e4 + [Create(0, Reply.Ok)];
    ExecSnoc([], Upsert(0, key, a, 0));
    assert [] + e1 == e1;
    ExecSnoc(e1, List([0], 0));
    ExecSnoc(e2, Upsert(0, key, b, 1));
    ExecSnoc(e3, Find(None));
    ExecSnoc(e4, Create(0, Reply.Ok));
    ExecSnoc(e5, Mark(true));
    QueuedRun(key, a, b);
    hide Exec; hide Step;
  }

  lemma QueuedRun(key: string, a: string, b: string)
    requires a != b
    ensures var s2 := Step(Step(START, Upsert(0, key, a, 0)), List([0], 0));
            var s := Step(Step(Step(Step(s2, Upsert(0, key, b, 1)), Find(None)), Create(0, Reply.Ok)), Mark(true));
            && 0 in s.rows && s.rows[0].present && Wanted(s.rows[0]) == Rec(key, b) && s.zone == map[0 := Rec(key, a)]
            && Settled(s, 0, 0) && !Can(s, 0)
  {
    var old0, new0 := Fresh0(key, a), Row(0, key, b, true, None, 0, Some(1));
    var s1 := START.(rows := map[0 := old0], ids := {0});
    assert Step(START, Upsert(0, key, a, 0)) == s1;
    var s2 := s1.(queue := [old0]);
    assert Step(s1, List([0], 0)) == s2;
    var s3 := s2.(rows := map[0 := new0]);
    assert Step(s2, Upsert(0, key, b, 1)) == s3;
    var s4 := s3.(phase := Missing);
    assert Step(s3, Find(None)) == s4;
    var s5 := s4.(zone := map[0 := Rec(key, a)], used := {0}, origin := map[0 := Created], phase := Made(0));
    assert Step(s4, Create(0, Reply.Ok)) == s5;
    var s6 := Step(s5, Mark(true));
    assert s6.rows == map[0 := new0.(rid := Some(0), next := None)] && s6.queue == [] && s6.zone == s5.zone;
  }

  /** Route three: the tombstone comes before the mark. */
  lemma TombstoneBeforeMark(key: string, content: string)
    ensures var s := Exec(Creation(key, content) + [Tombstone({0}, 1)] + [Mark(true)]);
            Lost(s, 0, 0) && s.zone == map[0 := Rec(key, content)]
  {
    var c := Creation(key, content);
    Created0(key, content);
    ExecSnoc(c, Tombstone({0}, 1));
    ExecSnoc(c + [Tombstone({0}, 1)], Mark(true));
    var s := Exec(c);
    hide Exec; hide Creation;
    var r := Buried(Fresh0(key, content), 1);
    var t := Step(s, Tombstone({0}, 1));
    assert t == s.(rows := map[0 := r]);
    var u := Step(t, Mark(true));
    assert u.rows == map[0 := r.(rid := Some(0), next := None)] && u.queue == [] && u.zone == s.zone;
  }

  /** An idle sweeper and a tombstone it can still reap. */
  ghost predicate Reaping(s: State, k: nat, rid: Rid) {
    && Steady(s) && s.queue == [] && s.phase.Begin?
    && k in s.rows && !s.rows[k].present && s.rows[k].rid == Some(rid) && s.rows[k].next.Some?
  }

  /** A turn in which the provider refuses the delete. */
  lemma RefusedTurn(s: State, k: nat, rid: Rid) returns (t: State)
    requires Reaping(s, k, rid)
    ensures Leads(s, t) && t.zone == s.zone && Steady(t)
    ensures if s.rows[k].attempt + 1 < MAX_ATTEMPTS then Reaping(t, k, rid) && t.rows[k].attempt == s.rows[k].attempt + 1
            else Lost(t, k, rid)
  {
    LeadsSelf(s);
    assert Tidy(s) && s.rows[k].id == k;
    var r, now := s.rows[k], s.rows[k].next.value;
    hide Steady; hide Leads; hide Backoff;
    t := GoOn(s, s, List([k], now));
    assert t == s.(queue := [r]);
    t := GoOn(s, t, Delete(Reply.Refused));
    assert t == s.(queue := [r], phase := Failing);
    t := GoOn(s, t, Fail(now, true));
    assert t.queue == [] && t.phase.Begin? && t.zone == s.zone;
  }

  /** Route four: the delete is refused until no attempt is left. */
  lemma {:induction false} RefusedToTheEnd(s: State, k: nat, rid: Rid) returns (t: State)
    requires Reaping(s, k, rid)
    ensures Leads(s, t) && t.zone == s.zone && Lost(t, k, rid)
    decreases MAX_ATTEMPTS - s.rows[k].attempt
  {
    var u := RefusedTurn(s, k, rid);
    hide Steady; hide Leads; hide Lost;
    if s.rows[k].attempt + 1 < MAX_ATTEMPTS {
      t := RefusedToTheEnd(u, k, rid);
      LeadsTrans(s, u, t);
    } else {
      t := u;
    }
  }

  /** It starts from any tombstone of a created record. */
  lemma TombstoneAfterMark(key: string, content: string)
    ensures Reaping(Exec(Creation(key, content) + [Mark(true)] + [Tombstone({0}, 1)]), 0, 0)
  {
    var c := Creation(key, content);
    Created0(key, content);
    ExecSnoc(c, Mark(true));
    ExecSnoc(c + [Mark(true)], Tombstone({0}, 1));
    RunSteady(c + [Mark(true)] + [Tombstone({0}, 1)]);
    var s := Exec(c);
    MarkedRow(s, key, content);
    hide Exec; hide Creation; hide Steady;
    var t := Step(s, Mark(true));
    BuriedRow(t, Fresh0(key, content).(rid := Some(0), next := None));
    hide Step;
  }

  lemma MarkedRow(s: State, key: string, content: string)
    requires s.rows == map[0 := Fresh0(key, content)] && s.queue == [Fresh0(key, content)] && s.phase == Made(0)
    ensures var t := Step(s, Mark(true));
            t.rows == map[0 := Fresh0(key, content).(rid := Some(0), next := None)] && t.queue == [] && t.phase.Begin?
  {
  }

  lemma BuriedRow(s: State, r: Row)
    requires s.rows == map[0 := r] && r.present && s.queue == [] && s.phase.Begin?
    ensures var t := Step(s, Tombstone({0}, 1)); t.rows == map[0 := Buried(r, 1)] && t.queue == [] && t.phase.Begin?
  {
  }
}
