/** When a pass fires a task, and what a Sync arms (agent/cron/cron.go). */
module CronFires {
  import opened Common
  import opened Cron

  // ------------------------------------------------------------------ when a task fires

  /** When the entry last fired, or the clock reading it was armed at. */
  ghost predicate LastTime(s: State, id: string, last: nat)
    requires id in s.armed && s.armed[id] in s.heap
  {
    var rs, r := RunsOf(s, id), s.armed[id];
    || (exists i :: Latest(rs, i) && rs[i].ref == r && rs[i].at == last)
    || (Absent(rs, r) && s.heap[r].armedAt == last)
  }

  lemma SinceIsLast(env: Env, s: State, id: string, last: nat)
    requires Wired(env, s) && Spaced(env, s) && Armings(env, s) && id in s.armed && LastTime(s, id, last)
    ensures s.armed[id] in s.heap && s.heap[s.armed[id]].task.id == id
    ensures s.heap[s.armed[id]].next == env.next(s.heap[s.armed[id]].task.schedule, last)
  {
    var rs, r := RunsOf(s, id), s.armed[id];
    if i :| Latest(rs, i) && rs[i].ref == r && rs[i].at == last {
      assert SpacedRuns(env, s.heap, id, rs);
    }
  }

  lemma PassRuns(env: Env, s: State, now: nat, id: string)
    requires id in s.armed
    ensures RunsOf(Fire(env, s, now), id) == RunsOf(s, id) + if IsDue(s, now, id) then [Firing(s.armed[id], now)] else []
  {
    assert IsDue(s, now, id) <==> id in DueIds(s, now);
  }

  /** In every run, a pass fires an armed task exactly when no execution of it is under way
      and its schedule has an occurrence after its entry's last firing, or after its arming,
      and no later than the pass; a schedule with none ahead is fired whenever it is free. */
  lemma FiresIff(env: Env, events: seq<Event>, s: State, now: nat, id: string, last: nat)
    requires Lawful(env) && s == Exec(env, START, events) && id in s.armed && s.armed[id] in s.heap && LastTime(s, id, last)
    ensures var schedule := s.heap[s.armed[id]].task.schedule;
            var fires := s.active[id] == 0 && (OccursBetween(env, schedule, last, now) || env.next(schedule, last) == ZERO);
            RunsOf(Step(env, s, FireDue(now)), id) == RunsOf(s, id) + if fires then [Firing(s.armed[id], now)] else []
  {
    RunSound(env, events);
    RunArmings(env, events);
    hide Exec;
    SinceIsLast(env, s, id, last);
    PassRuns(env, s, now, id);
    assert s.active[id] == 0 <==> id !in s.running;
    assert Step(env, s, FireDue(now)) == Fire(env, s, now);
    hide Fire; hide Wired; hide Spaced; hide Armings; hide LastTime; hide Step; hide Exclusive;
    assert NextAt(env, s.heap[s.armed[id]].task.schedule, last);
  }

  // -------------------------------------------------------------------- what a Sync arms

  /** The Sync takes the task: it parses, or it is the one armed already. */
  ghost predicate Taken(env: Env, was: State, t: Task) { env.parses(t.schedule) || Unchanged(was, t) }

  /** The map holds the tasks taken, each under its last listing. */
  ghost predicate Installs(env: Env, was: State, tasks: seq<Task>, heap: map<nat, Entry>, m: map<string, nat>) {
    && (forall i :: 0 <= i < |tasks| && Taken(env, was, tasks[i]) ==> tasks[i].id in m)
    && (forall id :: id in m ==> m[id] in heap && exists i :: LastTaken(env, was, tasks, i, id) && heap[m[id]].task == tasks[i])
  }

  ghost predicate LastTaken(env: Env, was: State, tasks: seq<Task>, i: int, id: string) {
    && 0 <= i < |tasks| && tasks[i].id == id && Taken(env, was, tasks[i])
    && forall j :: i < j < |tasks| ==> !(tasks[j].id == id && Taken(env, was, tasks[j]))
  }

  /** Entries are only added, and none changes its task. */
  ghost predicate Keeps(heap: map<nat, Entry>, after: map<nat, Entry>) {
    forall r :: r in heap ==> r in after && after[r].task == heap[r].task
  }

  /** The Sync of these tasks, begun in `was`, has looked at all but `todo`. */
  ghost predicate Building(env: Env, was: State, s: State, tasks: seq<Task>) {
    && s.sync.Some? && s.armed == was.armed && Keeps(was.heap, s.heap)
    && var y := s.sync.value;
       && |y.todo| <= |tasks| && y.todo == tasks[|tasks| - |y.todo|..]
       && Installs(env, was, tasks[..|tasks| - |y.todo|], s.heap, y.next)
  }

  lemma InstallsMore(env: Env, was: State, tasks: seq<Task>, t: Task, heap: map<nat, Entry>, after: map<nat, Entry>,
                     m: map<string, nat>, r: nat)
    requires Installs(env, was, tasks, heap, m) && Keeps(heap, after) && r in after && after[r].task == t
    requires Taken(env, was, t)
    ensures Installs(env, was, tasks + [t], after, m[t.id := r])
  {
    var all, n := tasks + [t], m[t.id := r];
    assert forall i :: 0 <= i < |tasks| ==> all[i] == tasks[i];
    hide Taken;
    forall id | id in n ensures n[id] in after && exists i :: LastTaken(env, was, all, i, id) && after[n[id]].task == all[i] {
      if id == t.id {
        assert LastTaken(env, was, all, |tasks|, id) && after[n[id]].task == all[|tasks|];
      } else {
        var i :| LastTaken(env, was, tasks, i, id) && heap[m[id]].task == tasks[i];
        assert LastTaken(env, was, all, i, id);
      }
    }
  }

  lemma InstallsSkip(env: Env, was: State, tasks: seq<Task>, t: Task, heap: map<nat, Entry>, m: map<string, nat>)
    requires Installs(env, was, tasks, heap, m) && !Taken(env, was, t)
    ensures Installs(env, was, tasks + [t], heap, m)
  {
    var all := tasks + [t];
    assert forall i :: 0 <= i < |tasks| ==> all[i] == tasks[i];
    hide Taken;
    forall id | id in m ensures exists i :: LastTaken(env, was, all, i, id) && heap[m[id]].task == all[i] {
      var i :| LastTaken(env, was, tasks, i, id) && heap[m[id]].task == tasks[i];
      assert LastTaken(env, was, all, i, id);
    }
  }

  lemma InstallsKept(env: Env, was: State, tasks: seq<Task>, heap: map<nat, Entry>, after: map<nat, Entry>, m: map<string, nat>)
    requires Installs(env, was, tasks, heap, m) && Keeps(heap, after)
    ensures Installs(env, was, tasks, after, m)
  {
    hide LastTaken; hide Taken;
  }

  lemma UnchangedSame(was: State, s: State, t: Task)
    requires Points(was.heap, was.armed) && s.armed == was.armed && Keeps(was.heap, s.heap)
    ensures Unchanged(s, t) <==> Unchanged(was, t)
  {
  }

  lemma MatchBuilds(env: Env, was: State, s: State, tasks: seq<Task>)
    requires Points(was.heap, was.armed) && Wired(env, s) && Building(env, was, s, tasks) && s.sync.value.todo != []
    ensures Building(env, was, MatchOne(env, s), tasks)
  {
    var y := s.sync.value;
    var k := |tasks| - |y.todo|;
    var t, u := y.todo[0], MatchOne(env, s);
    UnchangedSame(was, s, t);
    assert tasks[..k + 1] == tasks[..k] + [t] && y.todo[1..] == tasks[k + 1..];
    hide Installs; hide Wired;
    if Unchanged(s, t) {
      InstallsMore(env, was, tasks[..k], t, s.heap, s.heap, y.next, s.armed[t.id]);
    } else if !env.parses(t.schedule) {
      InstallsSkip(env, was, tasks[..k], t, s.heap, y.next);
    } else {
      assert s.made !in s.heap by { MadeIsNew(env, s); }
      InstallsMore(env, was, tasks[..k], t, s.heap, u.heap, y.next, s.made);
    }
  }

  lemma MadeIsNew(env: Env, s: State)
    requires Wired(env, s)
    ensures s.made !in s.heap
  {
  }

  lemma FireBuilds(env: Env, was: State, s: State, tasks: seq<Task>, now: nat)
    requires Building(env, was, s, tasks)
    ensures Building(env, was, Fire(env, s, now), tasks)
  {
    FireHeap(env, s, now);
    var t := Fire(env, s, now);
    assert t.armed == s.armed && t.sync == s.sync;
    hide Fire; hide Installs; hide FiredRef;
    var y := s.sync.value;
    InstallsKept(env, was, tasks[..|tasks| - |y.todo|], s.heap, t.heap, y.next);
  }

  lemma StepBuilds(env: Env, was: State, s: State, tasks: seq<Task>, e: Event)
    requires Points(was.heap, was.armed) && Wired(env, s) && Building(env, was, s, tasks) && !e.SyncSwap?
    ensures Building(env, was, Step(env, s, e), tasks)
  {
    if e.FireDue? {
      FireBuilds(env, was, s, tasks, e.now);
    } else if e.SyncTask? && s.sync.value.todo != [] {
      MatchBuilds(env, was, s, tasks);
    }
    hide Fire; hide MatchOne; hide Installs; hide Wired;
  }

  lemma {:induction false} RunBuilds(env: Env, was: State, s: State, tasks: seq<Task>, mid: seq<Event>)
    requires Points(was.heap, was.armed) && Wired(env, s) && Building(env, was, s, tasks)
    requires forall i :: 0 <= i < |mid| ==> !mid[i].SyncSwap?
    ensures Wired(env, Exec(env, s, mid)) && Building(env, was, Exec(env, s, mid), tasks)
  {
    hide Step; hide Building; hide Wired; hide Points;
    if mid != [] {
      var init, e := mid[..|mid| - 1], mid[|mid| - 1];
      RunBuilds(env, was, s, tasks, init);
      StepWired(env, Exec(env, s, init), e);
      StepBuilds(env, was, Exec(env, s, init), tasks, e);
    }
  }

  lemma BeginBuilds(env: Env, was: State, tasks: seq<Task>, now: nat)
    requires Wired(env, was) && was.sync.None?
    ensures Points(was.heap, was.armed) && Building(env, was, Step(env, was, SyncBegin(tasks, now)), tasks)
  {
    assert tasks[|tasks| - |tasks|..] == tasks;
  }

  lemma SwapArms(env: Env, was: State, s: State, tasks: seq<Task>)
    requires Building(env, was, s, tasks) && s.sync.value.todo == []
    ensures var t := Step(env, s, SyncSwap); t.sync.None? && Installs(env, was, tasks, t.heap, t.armed)
  {
    hide Installs;
    assert tasks[..|tasks|] == tasks;
  }

  /** For every run: when a Sync is done, whatever passes and completions came between its
      sections, exactly the listed tasks that parse or were armed just so are armed, each as
      it was last listed, and nothing else is. */
  lemma SyncArms(env: Env, before: seq<Event>, tasks: seq<Task>, now: nat, mid: seq<Event>, was: State, s: State)
    requires was == Exec(env, START, before) && was.sync.None? && forall i :: 0 <= i < |mid| ==> !mid[i].SyncSwap?
    requires s == Exec(env, Step(env, was, SyncBegin(tasks, now)), mid) && s.sync.Some? && s.sync.value.todo == []
    ensures var t := Step(env, s, SyncSwap);
            && t.sync.None?
            && (forall id :: id in t.armed <==> exists i :: 0 <= i < |tasks| && tasks[i].id == id && Taken(env, was, tasks[i]))
            && (forall id :: id in t.armed ==>
                  t.armed[id] in t.heap && exists i :: LastTaken(env, was, tasks, i, id) && t.heap[t.armed[id]].task == tasks[i])
  {
    hide *;
    RunSound(env, before);
    BeginBuilds(env, was, tasks, now);
    StepWired(env, was, SyncBegin(tasks, now));
    RunBuilds(env, was, Step(env, was, SyncBegin(tasks, now)), tasks, mid);
    SwapArms(env, was, s, tasks);
    var t := Step(env, s, SyncSwap);
    InstallsMeans(env, was, tasks, t.heap, t.armed);
  }

  lemma InstallsMeans(env: Env, was: State, tasks: seq<Task>, heap: map<nat, Entry>, m: map<string, nat>)
    requires Installs(env, was, tasks, heap, m)
    ensures forall id :: id in m <==> exists i :: 0 <= i < |tasks| && tasks[i].id == id && Taken(env, was, tasks[i])
    ensures forall id :: id in m ==>
              m[id] in heap && exists i :: LastTaken(env, was, tasks, i, id) && heap[m[id]].task == tasks[i]
  {
    hide Taken;
    forall id | id in m ensures exists i :: 0 <= i < |tasks| && tasks[i].id == id && Taken(env, was, tasks[i]) {
      var i :| LastTaken(env, was, tasks, i, id) && heap[m[id]].task == tasks[i];
    }
  }
}
