/** The agent's scheduled-task runner (agent/cron/cron.go): Sync rebuilds the armed map
    task by task while the fire loop advances shared entries and task runs finish. */
module Cron {
  import opened Common

  datatype Task = Task(id: string, app: string, schedule: string, command: seq<string>)

  /** The zero time, earlier than every reading of the host clock. */
  const ZERO: int := -1

  /** The schedule library: which texts parse, when a schedule occurs, its Next, and how far
      ahead Next looks before it gives up and returns the zero time. */
  datatype Env = Env(parses: string -> bool, occurs: (string, int) -> bool, next: (string, nat) -> int,
                     limit: nat -> nat)

  /** Next is the first occurrence strictly after `t`, or the zero time when there is none
      up to the limit. */
  ghost predicate NextAt(env: Env, schedule: string, t: nat) {
    var n := env.next(schedule, t);
    if n == ZERO then forall u :: t < u <= env.limit(t) ==> !env.occurs(schedule, u)
    else n > t && env.occurs(schedule, n) && forall u :: t < u < n ==> !env.occurs(schedule, u)
  }

  ghost predicate Lawful(env: Env) {
    forall schedule, t :: NextAt(env, schedule, t)
  }

  /** `armedAt` records the clock reading of the Sync that armed the entry, `since` when it
      was armed or last fired. */
  datatype Entry = Entry(task: Task, next: int, since: nat, armedAt: nat)

  datatype Firing = Firing(ref: nat, at: nat)

  /** A Sync in progress: the clock it read, the tasks still to match, the map it builds. */
  datatype Sync = Sync(now: nat, todo: seq<Task>, next: map<string, nat>)

  /** Entries are shared by reference, so `heap` holds them and the maps hold references.
      `active` counts the executions in progress by task id; `runs` records the firings. */
  datatype State = State(heap: map<nat, Entry>, armed: map<string, nat>, running: set<string>,
                         active: multiset<string>, sync: Option<Sync>, runs: map<string, seq<Firing>>, made: nat)

  const START := State(map[], map[], {}, multiset{}, None, map[], 0)

  datatype Event =
    | SyncBegin(tasks: seq<Task>, now: nat)
    | SyncTask          // match or arm the next task
    | SyncSwap          // install the new map
    | FireDue(now: nat)
    | Done(id: string)  // an execution of the task ends

  function RunsOf(s: State, id: string): seq<Firing> {
    if id in s.runs then s.runs[id] else []
  }

  /** matchUnchanged. */
  predicate Unchanged(s: State, t: Task) {
    t.id in s.armed && s.armed[t.id] in s.heap && s.heap[s.armed[t.id]].task == t
  }

  function MatchOne(env: Env, s: State): State
    requires s.sync.Some? && s.sync.value.todo != []
  {
    var y := s.sync.value;
    var t, rest := y.todo[0], y.todo[1..];
    if Unchanged(s, t) then s.(sync := Some(Sync(y.now, rest, y.next[t.id := s.armed[t.id]])))
    else if !env.parses(t.schedule) then s.(sync := Some(Sync(y.now, rest, y.next)))
    else s.(heap := s.heap[s.made := Entry(t, env.next(t.schedule, y.now), y.now, y.now)], made := s.made + 1,
            sync := Some(Sync(y.now, rest, y.next[t.id := s.made])))
  }

  predicate IsDue(s: State, now: nat, id: string) {
    id in s.armed && s.armed[id] in s.heap && now >= s.heap[s.armed[id]].next && id !in s.running
  }

  /** The tasks a pass of fireDue fires. */
  function DueIds(s: State, now: nat): set<string> {
    set id | id in s.armed && IsDue(s, now, id)
  }

  predicate FiredRef(s: State, now: nat, r: nat)
    requires r in s.heap
  {
    var id := s.heap[r].task.id;
    IsDue(s, now, id) && s.armed[id] == r
  }

  function Advance(env: Env, e: Entry, now: nat): Entry {
    e.(next := env.next(e.task.schedule, now), since := now)
  }

  function FireRuns(s: State, now: nat): map<string, seq<Firing>> {
    var due := DueIds(s, now);
    map id | id in s.runs.Keys + due :: RunsOf(s, id) + if id in due then [Firing(s.armed[id], now)] else []
  }

  function Fire(env: Env, s: State, now: nat): State {
    var due := DueIds(s, now);
    s.(running := s.running + due, active := s.active + multiset(due),
       heap := map r | r in s.heap :: if FiredRef(s, now, r) then Advance(env, s.heap[r], now) else s.heap[r],
       runs := FireRuns(s, now))
  }

  function Step(env: Env, s: State, e: Event): State {
    match e
    case SyncBegin(tasks, now) => if s.sync.None? then s.(sync := Some(Sync(now, tasks, map[]))) else s
    case SyncTask => if s.sync.Some? && s.sync.value.todo != [] then MatchOne(env, s) else s
    case SyncSwap =>
      if s.sync.Some? && s.sync.value.todo == [] then s.(armed := s.sync.value.next, sync := None) else s
    case FireDue(now) => Fire(env, s, now)
    case Done(id) => if id in s.active then s.(active := s.active - multiset{id}, running := s.running - {id}) else s
  }

  function Exec(env: Env, s: State, events: seq<Event>): State {
    if events == [] then s else Step(env, Exec(env, s, events[..|events| - 1]), events[|events| - 1])
  }

  // ------------------------------------------------------------------- invariants

  ghost predicate Points(heap: map<nat, Entry>, m: map<string, nat>) {
    forall id :: id in m ==> m[id] in heap && heap[m[id]].task.id == id
  }

  /** Every armed reference is an entry of its own task, and every entry's next fire time
      is Next of the moment it was armed or last fired. */
  ghost predicate Wired(env: Env, s: State) {
    && Points(s.heap, s.armed)
    && (s.sync.Some? ==> Points(s.heap, s.sync.value.next))
    && (forall r :: r in s.heap ==> r < s.made)
    && (forall r :: r in s.heap ==> s.heap[r].next == env.next(s.heap[r].task.schedule, s.heap[r].since))
  }

  /** The overlap guard: the running set is exactly the tasks with one execution. */
  ghost predicate Exclusive(s: State) {
    forall id :: s.active[id] == if id in s.running then 1 else 0
  }

  ghost predicate Consecutive(rs: seq<Firing>, i: int, j: int) {
    0 <= i < j < |rs| && rs[i].ref == rs[j].ref && forall k :: i < k < j ==> rs[k].ref != rs[i].ref
  }

  ghost predicate Latest(rs: seq<Firing>, i: int) {
    0 <= i < |rs| && forall k :: i < k < |rs| ==> rs[k].ref != rs[i].ref
  }

  /** The entry fires again no earlier than Next of its previous firing. */
  ghost predicate Spaced(env: Env, s: State) {
    forall id :: id in s.runs ==> SpacedRuns(env, s.heap, id, s.runs[id])
  }

  ghost predicate SpacedRuns(env: Env, heap: map<nat, Entry>, id: string, rs: seq<Firing>) {
    && (forall i :: 0 <= i < |rs| ==> rs[i].ref in heap && heap[rs[i].ref].task.id == id)
    && (forall i :: Latest(rs, i) ==> heap[rs[i].ref].since == rs[i].at)
    && (forall i, j :: Consecutive(rs, i, j) ==> rs[j].at >= env.next(heap[rs[i].ref].task.schedule, rs[i].at))
  }

  lemma FireHeap(env: Env, s: State, now: nat)
    ensures var h := Fire(env, s, now).heap;
            h.Keys == s.heap.Keys
            && forall r :: r in s.heap ==> h[r] == if FiredRef(s, now, r) then Advance(env, s.heap[r], now) else s.heap[r]
  {
  }

  lemma FireWired(env: Env, s: State, now: nat)
    requires Wired(env, s)
    ensures Wired(env, Fire(env, s, now))
  {
    FireHeap(env, s, now);
    var t := Fire(env, s, now);
    assert t.armed == s.armed && t.sync == s.sync && t.made == s.made;
    hide Fire; hide FiredRef;
    forall r | r in t.heap
      ensures r in s.heap && t.heap[r].task == s.heap[r].task
      ensures t.heap[r].next == env.next(t.heap[r].task.schedule, t.heap[r].since)
    {
    }
  }

  lemma MatchWired(env: Env, s: State)
    requires Wired(env, s) && s.sync.Some? && s.sync.value.todo != []
    ensures Wired(env, MatchOne(env, s))
  {
  }

  lemma StepWired(env: Env, s: State, e: Event)
    requires Wired(env, s)
    ensures Wired(env, Step(env, s, e))
  {
    if e.FireDue? {
      FireWired(env, s, e.now);
    } else if e.SyncTask? && s.sync.Some? && s.sync.value.todo != [] {
      MatchWired(env, s);
    }
    hide Fire; hide MatchOne;
  }

  lemma StepExclusive(env: Env, s: State, e: Event)
    requires Exclusive(s)
    ensures Exclusive(Step(env, s, e))
  {
    match e
    case FireDue(now) =>
      var due, t := DueIds(s, now), Fire(env, s, now);
      forall id ensures t.active[id] == if id in t.running then 1 else 0 {
        assert multiset(due)[id] == if id in due then 1 else 0;
      }
    case _ =>
  }

  ghost predicate SameFor(heap: map<nat, Entry>, now: map<nat, Entry>, id: string, but: Option<nat>) {
    forall r :: r in heap && heap[r].task.id == id && Some(r) != but ==> r in now && now[r] == heap[r]
  }

  lemma Unfired(env: Env, heap: map<nat, Entry>, now: map<nat, Entry>, id: string, rs: seq<Firing>)
    requires SpacedRuns(env, heap, id, rs) && SameFor(heap, now, id, None)
    ensures SpacedRuns(env, now, id, rs)
  {
  }

  /** A firing appended to a task's record: the entry was due, so its last firing is at
      least one Next away. */
  lemma Refired(env: Env, heap: map<nat, Entry>, after: map<nat, Entry>, id: string, rs: seq<Firing>, r: nat, now: nat)
    requires SpacedRuns(env, heap, id, rs) && SameFor(heap, after, id, Some(r))
    requires r in heap && heap[r].task.id == id && heap[r].next == env.next(heap[r].task.schedule, heap[r].since)
    requires now >= heap[r].next && r in after && after[r] == Advance(env, heap[r], now)
    ensures SpacedRuns(env, after, id, rs + [Firing(r, now)])
  {
    var f := Firing(r, now);
    var ts := rs + [f];
    assert forall i :: 0 <= i < |rs| ==> ts[i] == rs[i];
    forall i | 0 <= i < |ts| ensures ts[i].ref in after && after[ts[i].ref].task == heap[ts[i].ref].task {
      assert ts[i].ref == r || rs[i].ref in heap;
    }
    hide Latest; hide Consecutive;
    forall i | Latest(ts, i) ensures after[ts[i].ref].since == ts[i].at {
      LatestAfter(rs, f, i);
    }
    forall i, j | Consecutive(ts, i, j) ensures ts[j].at >= env.next(after[ts[i].ref].task.schedule, ts[i].at) {
      ConsecutiveAfter(rs, f, i, j);
    }
  }

  lemma LatestAfter(rs: seq<Firing>, f: Firing, i: int)
    requires Latest(rs + [f], i)
    ensures 0 <= i <= |rs| && (i < |rs| ==> Latest(rs, i) && rs[i].ref != f.ref)
  {
    var ts := rs + [f];
    assert ts[|rs|] == f;
    assert forall k :: 0 <= k < |rs| ==> ts[k] == rs[k];
  }

  lemma ConsecutiveAfter(rs: seq<Firing>, f: Firing, i: int, j: int)
    requires Consecutive(rs + [f], i, j)
    ensures 0 <= i < j <= |rs|
    ensures if j < |rs| then Consecutive(rs, i, j) else Latest(rs, i) && rs[i].ref == f.ref
  {
    var ts := rs + [f];
    assert ts[|rs|] == f;
    assert forall k :: 0 <= k < |rs| ==> ts[k] == rs[k];
  }

  lemma FireSpaced(env: Env, s: State, now: nat, id: string)
    requires Wired(env, s) && Spaced(env, s) && id in s.runs.Keys + DueIds(s, now)
    ensures SpacedRuns(env, Fire(env, s, now).heap, id, Fire(env, s, now).runs[id])
  {
    FireHeap(env, s, now);
    var t := Fire(env, s, now);
    assert SpacedRuns(env, s.heap, id, RunsOf(s, id));
    if id in DueIds(s, now) {
      var r := s.armed[id];
      assert t.runs[id] == RunsOf(s, id) + [Firing(r, now)];
      hide Fire; hide SpacedRuns;
      Refired(env, s.heap, t.heap, id, RunsOf(s, id), r, now);
    } else {
      assert t.runs[id] == RunsOf(s, id);
      hide Fire; hide SpacedRuns;
      Unfired(env, s.heap, t.heap, id, RunsOf(s, id));
    }
  }

  lemma MatchSpaced(env: Env, s: State)
    requires Wired(env, s) && Spaced(env, s) && s.sync.Some? && s.sync.value.todo != []
    ensures Spaced(env, MatchOne(env, s))
  {
    var t := MatchOne(env, s);
    forall id | id in t.runs ensures SpacedRuns(env, t.heap, id, t.runs[id]) {
      hide SpacedRuns;
      Unfired(env, s.heap, t.heap, id, s.runs[id]);
    }
  }

  lemma StepSpaced(env: Env, s: State, e: Event)
    requires Wired(env, s) && Spaced(env, s)
    ensures Spaced(env, Step(env, s, e))
  {
    if e.FireDue? {
      var t := Fire(env, s, e.now);
      forall id | id in t.runs ensures SpacedRuns(env, t.heap, id, t.runs[id]) {
        FireSpaced(env, s, e.now, id);
      }
    } else if e.SyncTask? && s.sync.Some? && s.sync.value.todo != [] {
      MatchSpaced(env, s);
    }
    hide Fire; hide MatchOne; hide SpacedRuns;
  }

  lemma {:induction false} RunSound(env: Env, events: seq<Event>)
    ensures var s := Exec(env, START, events); Wired(env, s) && Exclusive(s) && Spaced(env, s)
  {
    if events != [] {
      var s, e := Exec(env, START, events[..|events| - 1]), events[|events| - 1];
      RunSound(env, events[..|events| - 1]);
      hide Step; hide Wired; hide Exclusive; hide Spaced;
      StepWired(env, s, e);
      StepExclusive(env, s, e);
      StepSpaced(env, s, e);
    }
  }

  // ----------------------------------------------------------------- main results

  /** However Syncs, passes and completions interleave, a task id never executes twice at
      once. */
  lemma NeverTwiceAtOnce(env: Env, events: seq<Event>, id: string)
    ensures Exec(env, START, events).active[id] <= 1
  {
    RunSound(env, events);
    hide Exec;
  }

  ghost predicate OccursBetween(env: Env, schedule: string, first: nat, second: nat) {
    exists u :: first < u <= second && env.occurs(schedule, u)
  }

  /** Two consecutive firings of one entry have a scheduled occurrence after the first and
      no later than the second, exactly when Next still finds one after the first. */
  lemma OccurrenceBetween(env: Env, events: seq<Event>, id: string, i: nat, j: nat)
    requires Lawful(env) && id in Exec(env, START, events).runs
    requires Consecutive(Exec(env, START, events).runs[id], i, j)
    ensures var s := Exec(env, START, events);
            var first, second := s.runs[id][i], s.runs[id][j];
            && first.ref in s.heap
            && var schedule := s.heap[first.ref].task.schedule;
            && (env.next(schedule, first.at) != ZERO ==> OccursBetween(env, schedule, first.at, second.at))
            && (env.next(schedule, first.at) == ZERO && second.at <= env.limit(first.at) ==>
                  !OccursBetween(env, schedule, first.at, second.at))
  {
    RunSound(env, events);
    var s := Exec(env, START, events);
    hide Exec;
    assert SpacedRuns(env, s.heap, id, s.runs[id]);
    var first, second := s.runs[id][i], s.runs[id][j];
    var schedule := s.heap[first.ref].task.schedule;
    assert NextAt(env, schedule, first.at);
  }

  /** A Sync lists the task, and lists it as it was. */
  ghost predicate Steady(e: Event, task: Task) {
    e.SyncBegin? ==> task in e.tasks && OnlyAs(e.tasks, task)
  }

  ghost predicate OnlyAs(tasks: seq<Task>, task: Task) {
    forall i :: 0 <= i < |tasks| ==> tasks[i].id == task.id ==> tasks[i] == task
  }

  /** The task is armed with entry `r`, and a Sync under way will keep it so. */
  ghost predicate Holds(s: State, task: Task, r: nat) {
    && task.id in s.armed && s.armed[task.id] == r && r in s.heap && s.heap[r].task == task
    && (s.sync.Some? ==>
          var y := s.sync.value;
          && OnlyAs(y.todo, task)
          && (task.id in y.next ==> y.next[task.id] == r)
          && (task.id in y.next || task in y.todo))
  }

  lemma StepHolds(env: Env, s: State, e: Event, task: Task, r: nat)
    requires Wired(env, s) && Holds(s, task, r) && Steady(e, task)
    ensures Holds(Step(env, s, e), task, r)
    ensures RunsOf(Step(env, s, e), task.id) == RunsOf(s, task.id)
            || exists f: Firing :: f.ref == r && RunsOf(Step(env, s, e), task.id) == RunsOf(s, task.id) + [f]
  {
    if e.FireDue? {
      FireHolds(env, s, e.now, task, r);
    } else if e.SyncTask? && s.sync.Some? && s.sync.value.todo != [] {
      MatchHolds(env, s, task, r);
    }
    hide Fire; hide MatchOne;
  }

  lemma FireHolds(env: Env, s: State, now: nat, task: Task, r: nat)
    requires Holds(s, task, r)
    ensures Holds(Fire(env, s, now), task, r)
    ensures RunsOf(Fire(env, s, now), task.id) == RunsOf(s, task.id)
            || exists f: Firing :: f.ref == r && RunsOf(Fire(env, s, now), task.id) == RunsOf(s, task.id) + [f]
  {
    FireHeap(env, s, now);
    var t := Fire(env, s, now);
    if task.id in DueIds(s, now) {
      assert RunsOf(t, task.id) == RunsOf(s, task.id) + [Firing(r, now)];
    } else {
      assert RunsOf(t, task.id) == RunsOf(s, task.id);
    }
    assert t.armed == s.armed && t.sync == s.sync;
    hide Fire;
  }

  lemma MatchHolds(env: Env, s: State, task: Task, r: nat)
    requires Wired(env, s) && Holds(s, task, r) && s.sync.Some? && s.sync.value.todo != []
    ensures Holds(MatchOne(env, s), task, r) && MatchOne(env, s).runs == s.runs
  {
    var y := s.sync.value;
    assert y.todo == [y.todo[0]] + y.todo[1..];
  }

  /** A task that every Sync lists unchanged keeps one entry: all its firings are that
      entry's, none is lost from the record, and so between any two consecutive ones there
      is an occurrence while the schedule has one. This holds although Syncs swap the map
      while passes advance the entries. */
  lemma {:induction false} UnchangedKeepsEntry(env: Env, before: seq<Event>, more: seq<Event>, task: Task, r: nat)
    requires Holds(Exec(env, START, before), task, r)
    requires forall i :: 0 <= i < |more| ==> Steady(more[i], task)
    ensures var s, t := Exec(env, START, before), Exec(env, START, before + more);
            && Holds(t, task, r)
            && RunsOf(s, task.id) <= RunsOf(t, task.id)
            && forall i :: |RunsOf(s, task.id)| <= i < |RunsOf(t, task.id)| ==> RunsOf(t, task.id)[i].ref == r
  {
    hide Step; hide Holds; hide Steady; hide RunsOf;
    var all := before + more;
    if more == [] {
      assert all == before;
    } else {
      var init := more[..|more| - 1];
      assert all[..|all| - 1] == before + init;
      UnchangedKeepsEntry(env, before, init, task, r);
      RunSound(env, before + init);
      StepHolds(env, Exec(env, START, before + init), all[|all| - 1], task, r);
    }
  }

  lemma UnchangedFiresOnOccurrences(env: Env, before: seq<Event>, more: seq<Event>, task: Task, r: nat, i: nat)
    requires Lawful(env)
    requires Holds(Exec(env, START, before), task, r)
    requires forall k :: 0 <= k < |more| ==> Steady(more[k], task)
    requires var s, t := Exec(env, START, before), Exec(env, START, before + more);
             |RunsOf(s, task.id)| <= i < |RunsOf(t, task.id)| - 1
    ensures var rs := RunsOf(Exec(env, START, before + more), task.id);
            var first, second := rs[i].at, rs[i + 1].at;
            && (env.next(task.schedule, first) != ZERO ==> OccursBetween(env, task.schedule, first, second))
            && (env.next(task.schedule, first) == ZERO && second <= env.limit(first) ==>
                  !OccursBetween(env, task.schedule, first, second))
  {
    UnchangedKeepsEntry(env, before, more, task, r);
    hide Exec; hide OccursBetween;
    OccurrenceBetween(env, before + more, task.id, i, i + 1);
  }

  // ------------------------------------------------------------------ re-armed tasks

  ghost predicate Absent(rs: seq<Firing>, r: nat) {
    forall k :: 0 <= k < |rs| ==> rs[k].ref != r
  }

  ghost predicate FirstOf(rs: seq<Firing>, i: int) {
    0 <= i < |rs| && Absent(rs[..i], rs[i].ref)
  }

  ghost predicate UpTo(rs: seq<Firing>, r: nat) {
    forall k :: 0 <= k < |rs| ==> rs[k].ref <= r
  }

  ghost predicate Rising(rs: seq<Firing>) {
    forall i, j :: 0 <= i < j < |rs| ==> rs[i].ref <= rs[j].ref
  }

  /** Entries of a task are armed one after the other, in the order they were made. */
  ghost predicate Successive(s: State) {
    && (forall id :: id in s.runs ==> Rising(s.runs[id]))
    && (forall id :: id in s.armed ==> UpTo(RunsOf(s, id), s.armed[id]))
    && (s.sync.Some? ==> forall id :: id in s.sync.value.next ==>
          && UpTo(RunsOf(s, id), s.sync.value.next[id])
          && (id in s.armed ==> s.armed[id] <= s.sync.value.next[id]))
  }

  lemma SameRefs(rs: seq<Firing>, f: Firing)
    requires Rising(rs) && UpTo(rs, f.ref)
    ensures Rising(rs + [f]) && UpTo(rs + [f], f.ref)
  {
  }

  lemma RisesTo(rs: seq<Firing>, r: nat, q: nat)
    requires UpTo(rs, r) && r <= q
    ensures UpTo(rs, q)
  {
  }

  lemma FireSuccessive(env: Env, s: State, now: nat)
    requires Successive(s)
    ensures Successive(Fire(env, s, now))
  {
    var t := Fire(env, s, now);
    assert t.armed == s.armed && t.sync == s.sync && t.runs == FireRuns(s, now);
    forall id ensures RunsOf(t, id) == RunsOf(s, id) + if IsDue(s, now, id) then [Firing(s.armed[id], now)] else [] {
      assert IsDue(s, now, id) <==> id in DueIds(s, now);
    }
    hide Fire; hide FireRuns; hide IsDue; hide Rising; hide UpTo;
    forall id ensures Rising(RunsOf(t, id)) && (id in t.armed ==> UpTo(RunsOf(t, id), t.armed[id])) {
      Grown(s, t, now, id);
    }
    if t.sync.Some? {
      forall id | id in t.sync.value.next ensures UpTo(RunsOf(t, id), t.sync.value.next[id]) {
        if id in s.armed {
          RisesTo(RunsOf(t, id), s.armed[id], t.sync.value.next[id]);
        } else {
          NotArmed(s, now, id);
        }
      }
    }
  }

  lemma NotArmed(s: State, now: nat, id: string)
    requires id !in s.armed
    ensures !IsDue(s, now, id)
  {
  }

  lemma Grown(s: State, t: State, now: nat, id: string)
    requires Successive(s) && t.armed == s.armed
    requires RunsOf(t, id) == RunsOf(s, id) + if IsDue(s, now, id) then [Firing(s.armed[id], now)] else []
    ensures Rising(RunsOf(t, id)) && (id in t.armed ==> UpTo(RunsOf(t, id), t.armed[id]))
  {
    assert Rising(RunsOf(s, id));
    if IsDue(s, now, id) {
      SameRefs(RunsOf(s, id), Firing(s.armed[id], now));
    } else {
      assert RunsOf(t, id) == RunsOf(s, id);
    }
  }

  /** Every recorded reference is an entry made before now. */
  lemma MadeRefs(env: Env, s: State, id: string)
    requires Wired(env, s) && Spaced(env, s)
    ensures UpTo(RunsOf(s, id), s.made) && Absent(RunsOf(s, id), s.made)
  {
    if id in s.runs {
      assert SpacedRuns(env, s.heap, id, s.runs[id]);
    }
  }

  lemma MatchSuccessive(env: Env, s: State)
    requires Wired(env, s) && Spaced(env, s) && Successive(s) && s.sync.Some? && s.sync.value.todo != []
    ensures Successive(MatchOne(env, s))
  {
    var t, id := MatchOne(env, s), s.sync.value.todo[0].id;
    MadeRefs(env, s, id);
    assert t.runs == s.runs && t.armed == s.armed && t.sync.Some?;
    assert id in s.armed ==> s.armed[id] <= s.made;
    hide Wired; hide Spaced; hide Rising; hide UpTo;
  }

  lemma StepSuccessive(env: Env, s: State, e: Event)
    requires Wired(env, s) && Spaced(env, s) && Successive(s)
    ensures Successive(Step(env, s, e))
  {
    if e.FireDue? {
      FireSuccessive(env, s, e.now);
    } else if e.SyncTask? && s.sync.Some? && s.sync.value.todo != [] {
      MatchSuccessive(env, s);
    }
    hide Fire; hide MatchOne; hide Rising; hide UpTo; hide Wired; hide Spaced;
  }

  /** Every entry that has not fired is still as it was armed, and the first firing of an
      entry comes no earlier than Next of its arming. */
  ghost predicate Armings(env: Env, s: State) {
    && (forall r :: r in s.heap && Absent(RunsOf(s, s.heap[r].task.id), r) ==> s.heap[r].since == s.heap[r].armedAt)
    && (forall id :: id in s.runs ==> FirstsDue(env, s.heap, s.runs[id]))
  }

  ghost predicate FirstsDue(env: Env, heap: map<nat, Entry>, rs: seq<Firing>) {
    forall i :: FirstOf(rs, i) ==>
      rs[i].ref in heap && rs[i].at >= env.next(heap[rs[i].ref].task.schedule, heap[rs[i].ref].armedAt)
  }

  ghost predicate SameArmings(heap: map<nat, Entry>, after: map<nat, Entry>) {
    forall r :: r in heap ==> r in after && after[r].task == heap[r].task && after[r].armedAt == heap[r].armedAt
  }

  lemma FirstsKept(env: Env, heap: map<nat, Entry>, after: map<nat, Entry>, rs: seq<Firing>)
    requires FirstsDue(env, heap, rs) && SameArmings(heap, after)
    ensures FirstsDue(env, after, rs)
  {
  }

  lemma FirstsGrow(env: Env, heap: map<nat, Entry>, after: map<nat, Entry>, rs: seq<Firing>, f: Firing)
    requires FirstsDue(env, heap, rs) && SameArmings(heap, after) && f.ref in heap
    requires Absent(rs, f.ref) ==> f.at >= env.next(heap[f.ref].task.schedule, heap[f.ref].armedAt)
    ensures FirstsDue(env, after, rs + [f])
  {
    var ts := rs + [f];
    forall i | FirstOf(ts, i)
      ensures ts[i].ref in after && ts[i].at >= env.next(after[ts[i].ref].task.schedule, after[ts[i].ref].armedAt)
    {
      assert ts[..i] == rs[..i];
      if i < |rs| {
        assert FirstOf(rs, i);
      } else {
        assert rs[..i] == rs;
      }
    }
  }

  lemma FireArmings(env: Env, s: State, now: nat, id: string)
    requires Wired(env, s) && Armings(env, s) && id in Fire(env, s, now).runs
    ensures FirstsDue(env, Fire(env, s, now).heap, Fire(env, s, now).runs[id])
  {
    FireHeap(env, s, now);
    var t := Fire(env, s, now);
    assert FirstsDue(env, s.heap, RunsOf(s, id));
    assert SameArmings(s.heap, t.heap);
    if id in DueIds(s, now) {
      var r := s.armed[id];
      assert t.runs[id] == RunsOf(s, id) + [Firing(r, now)];
      hide Fire; hide FirstsDue; hide FiredRef;
      FirstsGrow(env, s.heap, t.heap, RunsOf(s, id), Firing(r, now));
    } else {
      assert t.runs[id] == RunsOf(s, id);
      hide Fire; hide FirstsDue; hide FiredRef;
      FirstsKept(env, s.heap, t.heap, RunsOf(s, id));
    }
  }

  /** An entry that still has not fired was not advanced. */
  lemma StillUnfired(env: Env, s: State, now: nat, r: nat)
    requires r in s.heap && Absent(RunsOf(Fire(env, s, now), s.heap[r].task.id), r)
    ensures Absent(RunsOf(s, s.heap[r].task.id), r) && !FiredRef(s, now, r)
  {
    var id := s.heap[r].task.id;
    var rs, ts := RunsOf(s, id), RunsOf(Fire(env, s, now), id);
    if IsDue(s, now, id) {
      assert id in DueIds(s, now);
      assert ts == rs + [Firing(s.armed[id], now)];
      assert ts[|rs|].ref == s.armed[id];
    } else {
      assert id !in DueIds(s, now);
      assert ts == rs;
    }
    hide Fire;
    assert forall k :: 0 <= k < |rs| ==> ts[k] == rs[k];
  }

  lemma FireAllArmings(env: Env, s: State, now: nat)
    requires Wired(env, s) && Armings(env, s)
    ensures Armings(env, Fire(env, s, now))
  {
    FireHeap(env, s, now);
    var t := Fire(env, s, now);
    hide Fire; hide FiredRef; hide FirstsDue;
    forall r | r in t.heap && Absent(RunsOf(t, t.heap[r].task.id), r) ensures t.heap[r].since == t.heap[r].armedAt {
      StillUnfired(env, s, now, r);
    }
    forall id | id in t.runs ensures FirstsDue(env, t.heap, t.runs[id]) {
      FireArmings(env, s, now, id);
    }
  }

  /** Matching makes at most one entry, under a new reference. */
  lemma MatchHeap(env: Env, s: State)
    requires Wired(env, s) && s.sync.Some? && s.sync.value.todo != []
    ensures var t := MatchOne(env, s);
            && t.runs == s.runs
            && (forall r :: r in s.heap ==> r in t.heap && t.heap[r] == s.heap[r])
            && (forall r :: r in t.heap && r !in s.heap ==> t.heap[r].since == t.heap[r].armedAt)
  {
  }

  lemma MatchArmings(env: Env, s: State)
    requires Wired(env, s) && Armings(env, s) && s.sync.Some? && s.sync.value.todo != []
    ensures Armings(env, MatchOne(env, s))
  {
    MatchHeap(env, s);
    hide MatchOne; hide FirstsDue; hide Wired; hide Absent;
    var t := MatchOne(env, s);
    forall id | id in t.runs ensures FirstsDue(env, t.heap, t.runs[id]) {
      FirstsKept(env, s.heap, t.heap, s.runs[id]);
    }
  }

  lemma StepArmings(env: Env, s: State, e: Event)
    requires Wired(env, s) && Spaced(env, s) && Armings(env, s)
    ensures Armings(env, Step(env, s, e))
  {
    if e.FireDue? {
      FireAllArmings(env, s, e.now);
    } else if e.SyncTask? && s.sync.Some? && s.sync.value.todo != [] {
      MatchArmings(env, s);
    }
    hide Fire; hide MatchOne; hide FirstsDue; hide Wired; hide Spaced;
  }

  lemma {:induction false} RunArmings(env: Env, events: seq<Event>)
    ensures var s := Exec(env, START, events); Successive(s) && Armings(env, s)
  {
    if events != [] {
      var s, e := Exec(env, START, events[..|events| - 1]), events[|events| - 1];
      RunArmings(env, events[..|events| - 1]);
      RunSound(env, events[..|events| - 1]);
      hide Step; hide Wired; hide Exclusive; hide Spaced; hide Successive; hide Armings;
      StepSuccessive(env, s, e);
      StepArmings(env, s, e);
    }
  }

  /** Two consecutive firings of a task by different entries, so that it was re-armed in
      between by a Sync that read the clock `y`: the second fires for the first occurrence
      after `y`. There is therefore an occurrence after the first firing and no later than
      the second whenever that one is after the first firing, as it is whenever `y` is not
      before it; and if it is not, the second fires without one unless the next occurrence
      has come as well. */
  lemma RearmedOccurrence(env: Env, events: seq<Event>, id: string, i: nat)
    requires Lawful(env) && id in Exec(env, START, events).runs
    requires var rs := Exec(env, START, events).runs[id]; i + 1 < |rs| && rs[i].ref != rs[i + 1].ref
    ensures var s := Exec(env, START, events);
            var first, second := s.runs[id][i], s.runs[id][i + 1];
            && second.ref in s.heap
            && var entry := s.heap[second.ref];
            var schedule, y := entry.task.schedule, entry.armedAt;
            && (env.next(schedule, y) != ZERO ==> OccursBetween(env, schedule, y, second.at))
            && (env.next(schedule, y) > first.at ==> OccursBetween(env, schedule, first.at, second.at))
            && (env.next(schedule, y) != ZERO && y >= first.at ==> OccursBetween(env, schedule, first.at, second.at))
            && (second.at < env.next(schedule, first.at) ==> !OccursBetween(env, schedule, first.at, second.at))
  {
    RunArmings(env, events);
    var s := Exec(env, START, events);
    var rs := s.runs[id];
    hide Exec;
    assert FirstsDue(env, s.heap, rs) && Rising(rs);
    FirstAfter(rs, i);
    assert FirstOf(rs, i + 1);
    var entry := s.heap[rs[i + 1].ref];
    assert NextAt(env, entry.task.schedule, entry.armedAt) && NextAt(env, entry.task.schedule, rs[i].at);
    hide Armings; hide Successive; hide FirstsDue; hide Rising; hide Lawful;
  }

  lemma FirstAfter(rs: seq<Firing>, i: nat)
    requires Rising(rs) && i + 1 < |rs| && rs[i].ref != rs[i + 1].ref
    ensures FirstOf(rs, i + 1)
  {
    forall k | 0 <= k < i + 1 ensures rs[k].ref != rs[i + 1].ref {
      assert rs[k].ref <= rs[i].ref <= rs[i + 1].ref;
    }
  }

  // ------------------------------------------------------------- dead and edited schedules

  /** A schedule with no occurrence ahead (such as 30 February) gets the zero time as its
      next fire time, so every pass fires it. */
  lemma DeadScheduleFiresEveryPass(env: Env, s: State, now: nat, id: string)
    requires Wired(env, s) && IsDue(s, now, id)
    requires forall t: nat :: env.next(s.heap[s.armed[id]].task.schedule, t) == ZERO
    ensures forall later: nat :: IsDue(Step(env, Fire(env, s, now), Done(id)), later, id)
  {
    var t := Fire(env, s, now);
    FiredEntry(env, s, now, id);
    DoneFrees(env, t, id);
    hide Fire; hide Step; hide Wired;
  }

  /** After a pass a task that was due is running, and its entry is at Next of the pass. */
  lemma FiredEntry(env: Env, s: State, now: nat, id: string)
    requires Wired(env, s) && IsDue(s, now, id)
    ensures var t := Fire(env, s, now);
            && t.armed == s.armed && id in t.active && s.armed[id] in t.heap
            && t.heap[s.armed[id]] == Advance(env, s.heap[s.armed[id]], now)
  {
    FireHeap(env, s, now);
    assert id in DueIds(s, now) && id in multiset(DueIds(s, now));
    assert FiredRef(s, now, s.armed[id]);
  }

  lemma DoneFrees(env: Env, s: State, id: string)
    requires id in s.active
    ensures var t := Step(env, s, Done(id)); t.armed == s.armed && t.heap == s.heap && id !in t.running
  {
  }

  /** Every schedule at every full minute. */
  const EVERY_MINUTE := Env(_ => true, (_, u: int) => u % 60 == 0, (_, t: nat) => (t / 60 + 1) * 60, t => t + 3600)

  const OLD_TASK := Task("t", "a", "* * * * *", ["old"])
  const NEW_TASK := Task("t", "a", "* * * * *", ["new"])

  lemma FireHeapOne(env: Env, s: State, now: nat, id: string)
    requires s.armed.Keys == {id} && Points(s.heap, s.armed) && IsDue(s, now, id)
    ensures Fire(env, s, now).heap == s.heap[s.armed[id] := Advance(env, s.heap[s.armed[id]], now)]
  {
    FireHeap(env, s, now);
    hide Fire;
  }

  lemma FireOne(env: Env, s: State, now: nat, id: string)
    requires s.armed.Keys == {id} && Points(s.heap, s.armed) && IsDue(s, now, id)
    ensures var r := s.armed[id];
            Fire(env, s, now) == s.(running := s.running + {id}, active := s.active + multiset{id},
                                    heap := s.heap[r := Advance(env, s.heap[r], now)],
                                    runs := s.runs[id := RunsOf(s, id) + [Firing(r, now)]])
  {
    FireHeapOne(env, s, now, id);
    FireRunsOne(env, s, now, id);
    var t := Fire(env, s, now);
    assert t == s.(running := t.running, active := t.active, heap := t.heap, runs := t.runs);
    assert t.running == s.running + DueIds(s, now) && t.active == s.active + multiset(DueIds(s, now));
    hide Fire;
    assert DueIds(s, now) == {id};
    assert multiset({id}) == multiset{id};
  }

  lemma FireRunsOne(env: Env, s: State, now: nat, id: string)
    requires s.armed.Keys == {id} && IsDue(s, now, id)
    ensures Fire(env, s, now).runs == s.runs[id := RunsOf(s, id) + [Firing(s.armed[id], now)]]
  {
    assert DueIds(s, now) == {id};
    var runs, want := Fire(env, s, now).runs, s.runs[id := RunsOf(s, id) + [Firing(s.armed[id], now)]];
    assert runs.Keys == want.Keys;
    forall k | k in want ensures runs[k] == want[k] {
      if k != id {
        assert runs[k] == s.runs[k] + [];
      }
    }
  }

  lemma ArmOne(env: Env, s: State, t: Task, now: nat)
    requires s.sync == Some(Sync(now, [t], map[])) && !Unchanged(s, t) && env.parses(t.schedule)
    ensures MatchOne(env, s) == s.(heap := s.heap[s.made := Entry(t, env.next(t.schedule, now), now, now)],
                                   made := s.made + 1, sync := Some(Sync(now, [], map[t.id := s.made])))
  {
    assert [t][1..] == [];
  }

  lemma SyncOne(env: Env, s: State, t: Task, now: nat)
    requires s.sync.None? && !Unchanged(s, t) && env.parses(t.schedule)
    ensures var arming := s.(heap := s.heap[s.made := Entry(t, env.next(t.schedule, now), now, now)], made := s.made + 1,
                             sync := Some(Sync(now, [], map[t.id := s.made])));
            && Step(env, Step(env, s, SyncBegin([t], now)), SyncTask) == arming
            && Step(env, arming, SyncSwap) == arming.(armed := map[t.id := s.made], sync := None)
  {
    ArmOne(env, s.(sync := Some(Sync(now, [t], map[]))), t, now);
    hide MatchOne;
  }

  /** For an edited task the spacing can fail: Sync read the clock at 59, the old entry
      fires at 60 while the Sync is under way, and the new entry, armed from 59, fires
      for the same minute at 90. */
  lemma EditedTaskFiresTwice()
    ensures var env := EVERY_MINUTE;
            var s3 := Step(env, Step(env, Step(env, START, SyncBegin([OLD_TASK], 0)), SyncTask), SyncSwap);
            var s5 := Step(env, Step(env, s3, SyncBegin([NEW_TASK], 59)), SyncTask);
            var s8 := Step(env, Step(env, Step(env, s5, FireDue(60)), SyncSwap), Done("t"));
            Step(env, s8, FireDue(90)).runs == map["t" := [Firing(0, 60), Firing(1, 90)]]
    ensures Lawful(EVERY_MINUTE) && !OccursBetween(EVERY_MINUTE, "* * * * *", 60, 90)
  {
    var env := EVERY_MINUTE;
    var s3 := START.(heap := map[0 := Entry(OLD_TASK, 60, 0, 0)], armed := map["t" := 0], made := 1);
    var s5 := s3.(heap := map[0 := Entry(OLD_TASK, 60, 0, 0), 1 := Entry(NEW_TASK, 60, 59, 59)], made := 2,
                  sync := Some(Sync(59, [], map["t" := 1])));
    var s6 := s5.(running := {"t"}, active := multiset{"t"}, runs := map["t" := [Firing(0, 60)]],
                  heap := map[0 := Entry(OLD_TASK, 120, 60, 0), 1 := Entry(NEW_TASK, 60, 59, 59)]);
    var s8 := s6.(armed := map["t" := 1], sync := None, active := multiset{}, running := {});
    hide Step; hide Lawful; hide OccursBetween;
    EditedSyncs(s3, s5);
    EditedMiddle(s5, s6, s8);
    MinuteLawful();
  }

  lemma EditedMiddle(s5: State, s6: State, s8: State)
    requires s5.armed == map["t" := 0] && s5.running == {} && s5.active == multiset{}
    requires s5.heap == map[0 := Entry(OLD_TASK, 60, 0, 0), 1 := Entry(NEW_TASK, 60, 59, 59)] && s5.runs == map[]
    requires s5.sync == Some(Sync(59, [], map["t" := 1]))
    requires s6 == s5.(running := {"t"}, active := multiset{"t"}, runs := map["t" := [Firing(0, 60)]],
                       heap := map[0 := Entry(OLD_TASK, 120, 60, 0), 1 := Entry(NEW_TASK, 60, 59, 59)])
    requires s8 == s6.(armed := map["t" := 1], sync := None, active := multiset{}, running := {})
    ensures Step(EVERY_MINUTE, Step(EVERY_MINUTE, Step(EVERY_MINUTE, s5, FireDue(60)), SyncSwap), Done("t")) == s8
    ensures Step(EVERY_MINUTE, s8, FireDue(90)).runs == map["t" := [Firing(0, 60), Firing(1, 90)]]
  {
    hide Fire; hide MatchOne;
    assert s5.active + multiset{"t"} == multiset{"t"};
    EditedFirings(s5, s6, s8);
    var s7 := s6.(armed := map["t" := 1], sync := None);
    assert s7.active - multiset{"t"} == multiset{} && s7.running - {"t"} == {};
    assert Step(EVERY_MINUTE, s7, Done("t")) == s8;
  }

  lemma MinuteLawful()
    ensures Lawful(EVERY_MINUTE) && !OccursBetween(EVERY_MINUTE, "* * * * *", 60, 90)
  {
    forall schedule, t: nat ensures NextAt(EVERY_MINUTE, schedule, t) {
      var n := (t / 60 + 1) * 60;
      forall u | t < u < n ensures u % 60 != 0 {
        assert u / 60 == t / 60;
      }
    }
  }

  lemma EditedSyncs(s3: State, s5: State)
    requires s3 == START.(heap := map[0 := Entry(OLD_TASK, 60, 0, 0)], armed := map["t" := 0], made := 1)
    requires s5 == s3.(heap := map[0 := Entry(OLD_TASK, 60, 0, 0), 1 := Entry(NEW_TASK, 60, 59, 59)], made := 2,
                       sync := Some(Sync(59, [], map["t" := 1])))
    ensures Step(EVERY_MINUTE, Step(EVERY_MINUTE, Step(EVERY_MINUTE, START, SyncBegin([OLD_TASK], 0)), SyncTask), SyncSwap) == s3
    ensures Step(EVERY_MINUTE, Step(EVERY_MINUTE, s3, SyncBegin([NEW_TASK], 59)), SyncTask) == s5
  {
    hide Step;
    SyncOne(EVERY_MINUTE, START, OLD_TASK, 0);
    SyncOne(EVERY_MINUTE, s3, NEW_TASK, 59);
  }

  lemma EditedFirings(s5: State, s6: State, s8: State)
    requires s5.armed == map["t" := 0] && s8.armed == map["t" := 1] && s5.running == s8.running == {}
    requires s5.heap == map[0 := Entry(OLD_TASK, 60, 0, 0), 1 := Entry(NEW_TASK, 60, 59, 59)] && s5.runs == map[]
    requires s6 == s5.(running := {"t"}, active := s5.active + multiset{"t"}, runs := map["t" := [Firing(0, 60)]],
                       heap := map[0 := Entry(OLD_TASK, 120, 60, 0), 1 := Entry(NEW_TASK, 60, 59, 59)])
    requires s8.heap == s6.heap && s8.runs == s6.runs
    ensures Fire(EVERY_MINUTE, s5, 60) == s6
    ensures Fire(EVERY_MINUTE, s8, 90).runs == map["t" := [Firing(0, 60), Firing(1, 90)]]
  {
    hide Fire;
    FireOne(EVERY_MINUTE, s5, 60, "t");
    assert s5.heap[0 := Advance(EVERY_MINUTE, s5.heap[0], 60)] == s6.heap;
    assert RunsOf(s5, "t") + [Firing(0, 60)] == [Firing(0, 60)];
    FireOne(EVERY_MINUTE, s8, 90, "t");
    assert RunsOf(s8, "t") + [Firing(1, 90)] == [Firing(0, 60), Firing(1, 90)];
  }
}
