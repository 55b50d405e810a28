/** The sweeper of core/dns/reconcile.go as it is written: a pass over the due rows that
    converges one row after the other. The provider and the database answer as they please.
    After every call the object is where the machine of `Dns` is, so what is proved of all
    event lists holds between any two of its calls. */
module DnsSweeper {
  import opened Common
  import opened Dns
  import opened DnsConverge

  class Sweeper {
    var rows: map<nat, Row>
    var zone: map<Rid, Rec>
    var queue: seq<Row>
    var used: set<Rid>
    var ids: set<nat>
    ghost var phase: Phase
    ghost var origin: map<Rid, Origin>
    ghost var lost: set<Rid>
    ghost var log: seq<Event>

    ghost function Now(): State
      reads this
    {
      State(rows, ids, zone, used, queue, phase, origin, lost)
    }

    ghost predicate Valid()
      reads this
    {
      Now() == Exec(log)
    }

    constructor ()
      ensures Valid() && log == []
    {
      rows, zone, queue, used, ids := map[], map[], [], {}, {};
      phase, origin, lost, log := Begin, map[], {}, [];
    }

    /** The history half of a call: the real fields have moved as event `e` moves them. */
    ghost method Log(e: Event)
      requires rows == Step(Exec(log), e).rows && zone == Step(Exec(log), e).zone
      requires queue == Step(Exec(log), e).queue && used == Step(Exec(log), e).used && ids == Step(Exec(log), e).ids
      modifies this`phase, this`origin, this`lost, this`log
      ensures log == old(log) + [e] && Now() == Step(Exec(old(log)), e) && Valid()
    {
      hide Step;
      var t := Step(Exec(log), e);
      phase, origin, lost, log := t.phase, t.origin, t.lost, log + [e];
      assert log[..|log| - 1] == old(log);
    }

    /** FindRecord: any record under the row's key, or none if there is none. */
    method FindRecord() returns (found: Option<Rid>)
      requires Valid() && queue != [] && phase.Begin? && queue[0].present
      modifies this`phase, this`origin, this`lost, this`log
      ensures Valid() && log == old(log) + [Find(found)]
      ensures found.Some? ==> found.value in zone && phase == Found(found.value, zone[found.value])
      ensures found.None? ==> phase.Missing?
    {
      hide Exec;
      var key := queue[0].key;
      if k :| k in zone && zone[k].key == key {
        found := Some(k);
      } else {
        found := None;
      }
      Log(Find(found));
    }

    /** CreateRecord, under an id the provider never gave out before. */
    method CreateRecord() returns (made: Rid, reply: Reply)
      requires Valid() && queue != [] && phase.Missing?
      modifies this`zone, this`used, this`phase, this`origin, this`lost, this`log
      ensures Valid() && log == old(log) + [Create(made, reply)]
      ensures phase == if reply.Ok? then Made(made) else Failing
    {
      hide Exec;
      Unused(used);
      made :| made !in used;
      reply := *;
      if !reply.Refused? {
        zone, used := zone[made := Wanted(queue[0])], used + {made};
      }
      Log(Create(made, reply));
    }

    method DeleteRecord() returns (reply: Reply)
      requires Valid() && MayDelete(Now())
      modifies this`zone, this`phase, this`origin, this`lost, this`log
      ensures Valid() && log == old(log) + [Delete(reply)]
      ensures phase == if reply.Ok? then Gone else Failing
    {
      hide Exec;
      reply := *;
      if !reply.Refused? {
        zone := zone - {queue[0].rid.value};
      }
      Log(Delete(reply));
    }

    method MarkCreated(rid: Rid) returns (ok: bool)
      requires Valid() && Marking(Now()) == Some(rid) && queue[0].id in rows
      modifies this`rows, this`queue, this`phase, this`origin, this`lost, this`log
      ensures Valid() && log == old(log) + [Mark(ok)]
      ensures if ok then queue == old(queue)[1..] && phase.Begin? else queue == old(queue) && phase.Failing?
    {
      hide Exec;
      ok := *;
      if ok {
        var k := queue[0].id;
        rows := rows[rows[k].id := rows[k].(rid := Some(rid), attempt := 0, next := None)];
        queue := queue[1..];
      }
      Log(Mark(ok));
    }

    method DropRow() returns (ok: bool)
      requires Valid() && MayDrop(Now())
      modifies this`rows, this`queue, this`phase, this`origin, this`lost, this`log
      ensures Valid() && log == old(log) + [Drop(ok)]
      ensures if ok then queue == old(queue)[1..] && phase.Begin? else queue == old(queue) && phase.Failing?
    {
      hide Exec;
      ok := *;
      if ok {
        rows := rows - {queue[0].id};
        queue := queue[1..];
      }
      Log(Drop(ok));
    }

    /** A find that failed, or a record that is somebody else's. */
    method GiveUp()
      requires Valid() && MayFail(Now())
      modifies this`phase, this`origin, this`lost, this`log
      ensures Valid() && log == old(log) + [CallError] && phase.Failing?
    {
      hide Exec;
      Log(CallError);
    }

    /** converge, for the first row of the queue. An error leaves the row at the head. */
    method Converge() returns (ok: bool)
      requires Valid() && queue != [] && phase.Begin?
      modifies this
      ensures Valid() && old(log) <= log
      ensures if ok then queue == old(queue)[1..] && phase.Begin? else queue == old(queue) && phase.Failing?
    {
      hide Exec; hide Step;
      var r := queue[0];
      RunSound(log);
      FreshFacts(Now());
      hide Sound;
      if !r.present {
        var reply := DeleteRecord();
        if !reply.Ok? {
          return false;
        }
        ok := DropRow();
        return;
      }
      var reachable: bool := *;
      if !reachable {
        GiveUp();
        return false;
      }
      var found := FindRecord();
      if found.Some? {
        if zone[found.value].content == r.content {
          ok := MarkCreated(found.value);
          return;
        }
        if r.rid == Some(found.value) {
          assert false; // the source updates the record here
        }
        GiveUp();
        return false;
      }
      var made, reply := CreateRecord();
      if !reply.Ok? {
        return false;
      }
      ok := MarkCreated(made);
    }

    /** fail: one attempt more on the row, and the next one after the backoff, unless this
        was the eighth; if the statement fails the row is left as it was. */
    method Fail(now: int) returns (recorded: bool)
      requires Valid() && queue != [] && phase.Failing?
      modifies this
      ensures Valid() && old(log) <= log && queue == old(queue)[1..] && phase.Begin?
      ensures var r := old(queue)[0];
              rows == if recorded && r.id in old(rows)
                      then old(rows)[old(rows)[r.id].id := old(rows)[r.id].(attempt := r.attempt + 1,
                             next := if r.attempt + 1 < MAX_ATTEMPTS then Some(now + Backoff(r.attempt)) else None)]
                      else old(rows)
    {
      hide Exec; hide Backoff;
      recorded := *;
      var r := queue[0];
      if recorded && r.id in rows {
        var n := r.attempt + 1;
        rows := rows[rows[r.id].id := rows[r.id].(attempt := n, next := if n < MAX_ATTEMPTS then Some(now + Backoff(r.attempt)) else None)];
      }
      queue := queue[1..];
      Log(Event.Fail(now, recorded));
    }

    /** A statement of deriveDesired or of the reaper: an upsert or a tombstone. */
    method Desire(e: Event)
      requires Valid() && queue == [] && phase.Begin? && (e.Upsert? || e.Tombstone?)
      modifies this
      ensures Valid() && queue == [] && phase.Begin? && log == old(log) + [e]
    {
      hide Exec;
      if e.Tombstone? {
        rows := map k | k in rows :: if k in e.which && rows[k].present then Buried(rows[k], e.now) else rows[k];
      } else if e.id in rows && rows[e.id].key == e.key {
        var r := rows[e.id];
        rows := rows[r.id := r.(content := e.content, present := true, attempt := 0, next := Some(e.now))];
      } else if e.id !in ids && forall k :: k in rows ==> rows[k].key != e.key {
        rows, ids := rows[e.id := Row(e.id, e.key, e.content, true, None, 0, Some(e.now))], ids + {e.id};
      }
      Log(e);
    }

    /** ListDueDNSRecords: due rows, each once and at most fifty; all of them if they are
        fewer. */
    method ListDue(now: int) returns (picked: seq<nat>)
      ensures Listed(Now(), picked, now) && |picked| <= 50
      ensures |picked| < 50 ==> forall k :: k in rows && Due(rows[k], now) ==> k in picked
    {
      picked := [];
      var left := rows.Keys;
      while left != {} && |picked| < SWEEP_BATCH
        invariant left <= rows.Keys && |picked| <= SWEEP_BATCH && Listed(Now(), picked, now)
        invariant forall i :: 0 <= i < |picked| ==> picked[i] !in left
        invariant forall k :: k in rows && k !in left && Due(rows[k], now) ==> k in picked
        decreases left
      {
        var k :| k in left;
        left := left - {k};
        if Due(rows[k], now) {
          ghost var was := picked;
          picked := picked + [k];
          assert picked[|was|] == k && forall x :: x in was ==> x in picked;
        }
      }
    }

    /** SweepDue: the desired rows are derived, the due ones are listed, and every listed row
        gets exactly one turn, in the order of the list; `listed` is the state of the list. */
    method SweepDue(desired: seq<Event>, now: int) returns (picked: seq<nat>, ghost listed: State, ghost turns: seq<nat>)
      requires Valid() && queue == [] && phase.Begin?
      requires forall i :: 0 <= i < |desired| ==> desired[i].Upsert? || desired[i].Tombstone?
      modifies this
      ensures Valid() && queue == [] && phase.Begin? && old(log) + desired <= log
      ensures listed == Exec(old(log) + desired) && Listed(listed, picked, now) && |picked| <= 50
      ensures |picked| < 50 ==> forall k :: k in listed.rows && Due(listed.rows[k], now) ==> k in picked
      ensures turns == picked
      ensures |picked| < 50 ==>
                forall k :: WantedNow(listed, k, now) && listed.rows[k].rid.None? ==> k in turns
    {
      hide Exec; hide Step;
      for i := 0 to |desired|
        invariant Valid() && queue == [] && phase.Begin? && log == old(log) + desired[..i]
      {
        Desire(desired[i]);
        assert desired[..i + 1] == desired[..i] + [desired[i]];
      }
      assert desired[..|desired|] == desired;
      picked := ListDue(now);
      listed, turns := Now(), [];
      TakeList(picked, now);
      hide Listed;
      ghost var began := queue;
      while queue != []
        invariant Valid() && phase.Begin? && old(log) + desired <= log
        invariant |turns| <= |picked| && queue == began[|turns|..] && turns == picked[..|turns|]
        decreases |queue|
      {
        ghost var n := |turns|;
        assert queue[0] == began[n];
        turns := turns + [queue[0].id];
        var ok := Converge();
        if !ok {
          var _ := Fail(now);
        }
      }
    }

    /** The snapshot the sweep works through. */
    method TakeList(picked: seq<nat>, now: int)
      requires Valid() && queue == [] && phase.Begin? && Listed(Now(), picked, now)
      modifies this
      ensures Valid() && phase.Begin? && log == old(log) + [List(picked, now)]
      ensures |queue| == |picked| && forall i :: 0 <= i < |picked| ==> queue[i].id == picked[i]
    {
      RunSound(log);
      assert Tidy(Now());
      hide Exec;
      queue := Snapshot(rows, picked);
      assert forall i :: 0 <= i < |picked| ==> queue[i] == rows[picked[i]] && queue[i].id == picked[i];
      Log(List(picked, now));
    }
  }
}
