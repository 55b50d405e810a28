/** When a DNS row that failed is tried again (backoffFor, fail and the due list in
    core/dns/reconcile.go and core/store/queries/dns.sql). */
module DnsBackoff {
  import opened Common
  import opened Dns
  import opened DnsConverge

  function Doubled(n: nat): nat { if n == 0 then 1 else 2 * Doubled(n - 1) }

  /** Thirty seconds times two to the n, at most an hour. */
  function Delay(n: nat): int { if 30 * Doubled(n) < 3600 then 30 * Doubled(n) else 3600 }

  lemma {:induction false} LongDoubled(n: nat)
    requires n >= 7
    ensures Doubled(n) >= 128
  {
    if n > 7 {
      LongDoubled(n - 1);
    }
  }

  lemma BackoffIs(n: nat)
    ensures Backoff(n) == Delay(n)
    ensures Backoff(0) == 30 && Backoff(n + 1) == (if 2 * Backoff(n) < 3600 then 2 * Backoff(n) else 3600)
    ensures Backoff(n) <= Backoff(n + 1) <= 3600
  {
    if n >= 7 {
      LongDoubled(n);
    } else {
      assert Doubled(1) == 2 && Doubled(2) == 4 && Doubled(3) == 8;
      assert Backoff(1) == 60 && Backoff(2) == 120 && Backoff(3) == 240;
      assert Doubled(4) == 16 && Doubled(5) == 32 && Doubled(6) == 64;
      assert Backoff(4) == 480 && Backoff(5) == 960 && Backoff(6) == 1920;
    }
  }

  /** The row is as given and not in the sweeper's hands. */
  ghost predicate Resting(s: State, k: nat, row: Row) {
    k in s.rows && s.rows[k] == row && forall i :: 0 <= i < |s.queue| ==> s.queue[i].id != k
  }

  /** Neither derived nor tombstoned anew, and not listed at or after `due`. */
  predicate Before(e: Event, due: int) { !e.Upsert? && !e.Tombstone? && (e.List? ==> e.now < due) }

  lemma RestStep(s: State, e: Event, k: nat, row: Row, due: int)
    requires Sound(s) && Resting(s, k, row) && row.next == Some(due) && Before(e, due)
    ensures Resting(Step(s, e), k, row)
  {
    if e.List? {
      RestList(s, e, k, row, due);
    } else if e.Mark? || e.Drop? || e.Fail? {
      if s.queue != [] {
        HeadOnly(s, e);
      } else {
        Idle(s, e);
      }
      hide Sound; hide Step;
    } else {
      hide Sound;
      RestCall(s, e);
      hide Step;
    }
  }

  lemma Idle(s: State, e: Event)
    requires s.queue == [] && (e.Mark? || e.Drop? || e.Fail?)
    ensures Step(s, e) == s
  {
    hide Backoff;
  }

  lemma RestCall(s: State, e: Event)
    requires e.Operator? || e.Find? || e.Create? || e.Update? || e.Delete? || e.CallError? || e.Crash?
    ensures Step(s, e).rows == s.rows && (Step(s, e).queue == s.queue || Step(s, e).queue == [])
  {
  }

  lemma RestList(s: State, e: Event, k: nat, row: Row, due: int)
    requires Sound(s) && Resting(s, k, row) && row.next == Some(due) && e.List? && e.now < due
    ensures Resting(Step(s, e), k, row)
  {
    assert Tidy(s);
    hide Sound;
    var t := Step(s, e);
    if t.queue != s.queue {
      forall i | 0 <= i < |t.queue| ensures t.queue[i].id != k {
        var j := e.picked[i];
        assert t.queue[i] == s.rows[j] && s.rows[j].id == j;
        assert Due(s.rows[j], e.now);
      }
    }
  }

  lemma {:induction false} Rests(s: State, more: seq<Event>, k: nat, row: Row, due: int)
    requires Sound(s) && Resting(s, k, row) && row.next == Some(due)
    requires forall i :: 0 <= i < |more| ==> Before(more[i], due)
    ensures Sound(ExecFrom(s, more)) && Resting(ExecFrom(s, more), k, row)
  {
    hide Sound; hide Resting; hide Step; hide Before;
    if more != [] {
      var init, e := more[..|more| - 1], more[|more| - 1];
      Rests(s, init, k, row, due);
      StepSound(ExecFrom(s, init), e);
      RestStep(ExecFrom(s, init), e, k, row, due);
    }
  }

  /** For every run in which a turn fails for the n-th time, n < 8, and is recorded: the row
      counts n, and until thirty seconds times two to the n - 1, at most an hour, have
      passed, no list takes it up and nothing touches it, whatever else happens, unless it is
      derived or tombstoned anew; from then on it is due. */
  lemma QuietUntilDue(events: seq<Event>, s: State, at: int, more: seq<Event>)
    requires s == Exec(events) && s.queue != [] && s.phase.Failing? && s.queue[0].attempt < 7
    requires forall i :: 0 <= i < |more| ==> Before(more[i], at + Delay(s.queue[0].attempt))
    ensures var k, n := s.queue[0].id, s.queue[0].attempt;
            var t := ExecFrom(Step(s, Fail(at, true)), more);
            && k in s.rows && k in t.rows
            && t.rows[k] == s.rows[k].(attempt := n + 1, next := Some(at + Delay(n)))
            && (forall i :: 0 <= i < |t.queue| ==> t.queue[i].id != k)
            && forall now :: Due(t.rows[k], now) <==>
                 now >= at + Delay(n) && if s.rows[k].present then s.rows[k].rid.None? else s.rows[k].rid.Some?
  {
    hide *;
    var r := s.queue[0];
    RunSound(events);
    BackoffIs(r.attempt);
    StepSound(s, Fail(at, true));
    FailRests(s, at);
    var row := s.rows[r.id].(attempt := r.attempt + 1, next := Some(at + Delay(r.attempt)));
    Rests(Step(s, Fail(at, true)), more, r.id, row, at + Delay(r.attempt));
    RestMeans(ExecFrom(Step(s, Fail(at, true)), more), r.id, row);
    forall now
      ensures Due(row, now) <==> now >= at + Delay(r.attempt) && if row.present then row.rid.None? else row.rid.Some?
    {
      DueMeans(row, now);
    }
  }

  lemma DueMeans(r: Row, now: int)
    requires r.next.Some?
    ensures Due(r, now) <==> now >= r.next.value && if r.present then r.rid.None? else r.rid.Some?
  {
  }

  lemma RestMeans(s: State, k: nat, row: Row)
    requires Resting(s, k, row)
    ensures k in s.rows && s.rows[k] == row && forall i :: 0 <= i < |s.queue| ==> s.queue[i].id != k
  {
  }

  lemma FailRests(s: State, at: int)
    requires Sound(s) && s.queue != [] && s.phase.Failing? && s.queue[0].attempt < 7
    ensures var r := s.queue[0];
            && r.id in s.rows
            && Resting(Step(s, Fail(at, true)), r.id,
                       s.rows[r.id].(attempt := r.attempt + 1, next := Some(at + Backoff(r.attempt))))
  {
    hide Backoff;
    var r, t := s.queue[0], Step(s, Fail(at, true));
    assert Fresh(s) && Tidy(s);
    hide Sound;
    assert t.queue == s.queue[1..];
    forall i | 0 <= i < |t.queue| ensures t.queue[i].id != r.id {
      assert t.queue[i] == s.queue[i + 1];
    }
  }
}
