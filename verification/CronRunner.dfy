/** The runner object of agent/cron/cron.go. Entries are heap objects shared between the
    armed map, a map under construction and the fire loop; every method moves the object
    exactly as the machine of `Cron` moves, so what is proved of all event lists holds of
    it. Sync's locals are fields, so that a pass or a completion can come between any two
    of its locked sections. */
module CronRunner {
  import opened Common
  import opened Cron

  /** An armed task: the source's entry. */
  class Armed {
    ghost const ref: nat
    const task: Task
    var next: int
    ghost const armedAt: nat
    ghost var since: nat

    constructor (ghost ref: nat, task: Task, next: int, ghost now: nat)
      ensures this.ref == ref && this.task == task && this.next == next && this.since == this.armedAt == now
    {
      this.ref, this.task, this.next, this.since, this.armedAt := ref, task, next, now, now;
    }

    ghost function View(): Entry
      reads this
    {
      Entry(task, next, since, armedAt)
    }
  }

  ghost function Refs(m: map<string, Armed>): map<string, nat> {
    map id | id in m :: m[id].ref
  }

  /** The map's entries are known ones, each of the task it is filed under. */
  ghost predicate Known(entries: map<nat, Armed>, m: map<string, Armed>) {
    forall id :: id in m ==> m[id].ref in entries && entries[m[id].ref] == m[id] && m[id].task.id == id
  }

  ghost predicate Chained(entries: map<nat, Armed>, made: nat, armed: map<string, Armed>, next: map<string, Armed>) {
    && (forall r :: r in entries ==> entries[r].ref == r && r < made)
    && Known(entries, armed) && Known(entries, next)
  }

  lemma ChainedNew(entries: map<nat, Armed>, made: nat, armed: map<string, Armed>, next: map<string, Armed>, e: Armed)
    requires Chained(entries, made, armed, next) && e.ref == made
    ensures made !in entries && Chained(entries[made := e], made + 1, armed, next[e.task.id := e])
    ensures Refs(next[e.task.id := e]) == Refs(next)[e.task.id := made]
  {
    assert made !in entries;
    assert Known(entries[made := e], armed);
    assert Known(entries[made := e], next[e.task.id := e]);
  }

  lemma ChainedOld(entries: map<nat, Armed>, made: nat, armed: map<string, Armed>, next: map<string, Armed>, id: string)
    requires Chained(entries, made, armed, next) && id in armed
    ensures Chained(entries, made, armed, next[id := armed[id]])
    ensures Refs(next[id := armed[id]]) == Refs(next)[id := armed[id].ref]
    ensures armed[id].ref in entries && entries[armed[id].ref] == armed[id]
  {
  }

  class Runner {
    const env: Env
    var armed: map<string, Armed>
    var running: set<string>
    var syncing: bool
    var syncNow: nat
    var todo: seq<Task>
    var next: map<string, Armed>
    ghost var entries: map<nat, Armed>
    ghost var active: multiset<string>
    ghost var runs: map<string, seq<Firing>>
    ghost var made: nat
    ghost var log: seq<Event>

    ghost predicate Linked()
      reads this
    {
      Chained(entries, made, armed, next)
    }

    ghost function Views(): map<nat, Entry>
      reads this, entries.Values
    {
      map r | r in entries :: entries[r].View()
    }

    ghost function Now(): State
      reads this, entries.Values
    {
      State(Views(), Refs(armed), running, active, if syncing then Some(Sync(syncNow, todo, Refs(next))) else None,
            runs, made)
    }

    /** The object is where the machine is after the events logged so far. */
    ghost predicate Valid()
      reads this, entries.Values
    {
      Linked() && Now() == Exec(env, START, log)
    }

    constructor (env: Env)
      ensures Valid() && log == [] && this.env == env && entries == map[]
    {
      this.env := env;
      armed, running, syncing, syncNow, todo, next := map[], {}, false, 0, [], map[];
      entries, active, runs, made, log := map[], multiset{}, map[], 0, [];
    }

    /** The object moved from `was` by one event. */
    lemma Logged(was: seq<Event>, e: Event)
      requires Linked() && log == was + [e] && Now() == Step(env, Exec(env, START, was), e)
      ensures Valid()
    {
      assert log[..|log| - 1] == was;
    }

    method BeginSync(tasks: seq<Task>, now: nat)
      requires Valid() && !syncing
      modifies this
      ensures Valid() && syncing && todo == tasks && entries == old(entries) && log == old(log) + [SyncBegin(tasks, now)]
    {
      hide Exec;
      syncing, syncNow, todo, next := true, now, tasks, map[];
      log := log + [SyncBegin(tasks, now)];
      assert Refs(next) == map[];
      Logged(old(log), SyncBegin(tasks, now));
    }

    /** matchUnchanged, and arming the task when it is new or edited. */
    method MatchNext()
      requires Valid() && syncing && todo != []
      modifies this
      ensures Valid() && syncing && todo == old(todo)[1..] && log == old(log) + [SyncTask]
      ensures forall r :: r in old(entries) ==> r in entries && entries[r] == old(entries)[r]
      ensures forall r :: r in entries && r !in old(entries) ==> fresh(entries[r])
    {
      hide Exec; hide Step; hide Chained; hide MatchOne;
      ghost var s := Now();
      MatchSteps(env, s);
      MatchTask();
      ghost var views := Views();
      log := log + [SyncTask];
      assert Views() == views;
      Logged(old(log), SyncTask);
    }

    method MatchTask()
      requires Linked() && syncing && todo != []
      modifies this
      ensures Linked() && Now() == MatchOne(env, old(Now())) && log == old(log) && syncing && todo == old(todo)[1..]
      ensures forall r :: r in old(entries) ==> r in entries && entries[r] == old(entries)[r]
      ensures forall r :: r in entries && r !in old(entries) ==> fresh(entries[r])
    {
      hide MatchOne; hide Chained;
      var t := todo[0];
      if t.id in armed && armed[t.id].task == t {
        Keep();
      } else if !env.parses(t.schedule) {
        Skip();
      } else {
        Arm();
      }
    }

    /** An unchanged task keeps its entry object. */
    method Keep()
      requires Linked() && syncing && todo != [] && todo[0].id in armed && armed[todo[0].id].task == todo[0]
      modifies this`todo, this`next
      ensures Linked() && Now() == MatchOne(env, old(Now())) && todo == old(todo)[1..]
    {
      var id := todo[0].id;
      ChainedOld(entries, made, armed, next, id);
      hide Chained;
      todo, next := todo[1..], next[id := armed[id]];
    }

    method Skip()
      requires Linked() && syncing && todo != []
      requires !(todo[0].id in armed && armed[todo[0].id].task == todo[0]) && !env.parses(todo[0].schedule)
      modifies this`todo
      ensures Linked() && Now() == MatchOne(env, old(Now())) && todo == old(todo)[1..]
    {
      todo := todo[1..];
    }

    /** A new or edited task gets a new entry, armed from the clock reading of the Sync. */
    method Arm()
      requires Linked() && syncing && todo != []
      requires !(todo[0].id in armed && armed[todo[0].id].task == todo[0]) && env.parses(todo[0].schedule)
      modifies this`todo, this`next, this`entries, this`made
      ensures Linked() && Now() == MatchOne(env, old(Now())) && todo == old(todo)[1..]
      ensures forall r :: r in old(entries) ==> r in entries && entries[r] == old(entries)[r]
      ensures forall r :: r in entries && r !in old(entries) ==> fresh(entries[r])
    {
      hide Chained; hide MatchOne;
      ghost var s := Now();
      var t := todo[0];
      if t.id in armed {
        ChainedOld(entries, made, armed, next, t.id);
      }
      assert !Unchanged(s, t);
      hide Unchanged;
      MatchArms(env, s);
      todo := todo[1..];
      File(t);
    }

    method File(t: Task)
      requires Linked()
      modifies this`next, this`entries, this`made
      ensures Linked() && made == old(made) + 1 && Refs(next) == Refs(old(next))[t.id := old(made)]
      ensures Views() == old(Views())[old(made) := Entry(t, env.next(t.schedule, syncNow), syncNow, syncNow)]
      ensures forall r :: r in old(entries) ==> r in entries && entries[r] == old(entries)[r]
      ensures forall r :: r in entries && r !in old(entries) ==> fresh(entries[r])
    {
      hide Chained;
      var e := new Armed(made, t, env.next(t.schedule, syncNow), syncNow);
      ChainedNew(entries, made, armed, next, e);
      next, entries, made := next[t.id := e], entries[made := e], made + 1;
    }

    method SwapIn()
      requires Valid() && syncing && todo == []
      modifies this
      ensures Valid() && !syncing && entries == old(entries) && log == old(log) + [SyncSwap]
    {
      hide Exec;
      armed, syncing, next := next, false, map[];
      log := log + [SyncSwap];
      Logged(old(log), SyncSwap);
    }

    /** Sync when nothing comes between its sections. */
    method SyncAll(tasks: seq<Task>, now: nat)
      requires Valid() && !syncing
      modifies this
      ensures Valid() && !syncing
      ensures log == old(log) + [SyncBegin(tasks, now)] + seq(|tasks|, _ => SyncTask) + [SyncSwap]
    {
      hide Exec; hide Chained;
      BeginSync(tasks, now);
      ghost var begun := log;
      var i := 0;
      while todo != []
        invariant Valid() && syncing && 0 <= i <= |tasks| && todo == tasks[i..]
        invariant log == begun + seq(i, _ => SyncTask)
        decreases |todo|
      {
        MatchNext();
        i := i + 1;
        assert seq(i, _ => SyncTask) == seq(i - 1, _ => SyncTask) + [SyncTask];
      }
      SwapIn();
    }

    /** An execution's deferred cleanup. */
    method Finish(id: string)
      requires Valid() && id in active
      modifies this
      ensures Valid() && entries == old(entries) && log == old(log) + [Done(id)]
    {
      hide Exec;
      running, active := running - {id}, active - multiset{id};
      log := log + [Done(id)];
      Logged(old(log), Done(id));
    }

    /** One pass: mark, collect and advance every due task. The collected tasks are the due
        ones, each once, as they were when collected. */
    method FireDue(now: nat) returns (toRun: seq<Task>)
      requires Valid()
      modifies this, entries.Values
      ensures Valid() && entries == old(entries) && log == old(log) + [Event.FireDue(now)]
      ensures Collected(old(Now()), now, {}, toRun)
    {
      hide Exec; hide Step; hide HalfWay; hide FireRuns; hide DueIds; hide Collected; hide Chained;
      ghost var s := Now();
      toRun := Pass(now);
      PassDone(s, now, toRun);
    }

    /** The history half of a pass: the firings and executions it started. */
    ghost method PassDone(s: State, now: nat, toRun: seq<Task>)
      requires Linked() && s == Exec(env, START, log) && HalfWay(env, s, now, {}, Views(), running, toRun)
      requires Now() == s.(heap := Views(), running := running)
      modifies this`active, this`runs, this`log
      ensures Valid() && log == old(log) + [Event.FireDue(now)] && Collected(s, now, {}, toRun)
    {
      hide Exec; hide Step; hide HalfWay; hide FireRuns; hide DueIds; hide Collected; hide Chained;
      ghost var views := Views();
      active, runs, log := active + multiset(DueIds(s, now)), FireRuns(s, now), log + [Event.FireDue(now)];
      assert Views() == views;
      PassEnds(env, s, now, Now(), toRun);
      Logged(old(log), Event.FireDue(now));
    }

    /** The loop over the armed map, in whatever order it is ranged over. */
    method Pass(now: nat) returns (toRun: seq<Task>)
      requires Linked()
      modifies this`running, entries.Values
      ensures HalfWay(env, old(Now()), now, {}, Views(), running, toRun)
    {
      hide HalfWay; hide IsDue; hide Points; hide DueIds; hide Collected; hide Chained;
      toRun := [];
      ghost var s := Now();
      var left := armed.Keys;
      assert Points(s.heap, s.armed) by { LinkedPoints(); }
      assert s.armed.Keys == left;
      PassBegins(env, s, now);
      while left != {}
        invariant left <= armed.Keys
        invariant HalfWay(env, s, now, left, Views(), running, toRun)
        decreases left
      {
        var id :| id in left;
        ChainedOld(entries, made, armed, next, id);
        ghost var views, was := Views(), running;
        var fired := Visit(id, now);
        PassVisits(env, s, now, left, id, views, was, toRun);
        if fired {
          toRun := toRun + [armed[id].task];
        }
        left := left - {id};
      }
    }

    lemma LinkedPoints()
      requires Linked()
      ensures Points(Views(), Refs(armed))
    {
    }

    /** The loop body for one armed task. */
    method Visit(id: string, now: nat) returns (fired: bool)
      requires Linked() && id in armed
      modifies this`running, armed[id]
      ensures fired == (now >= old(armed[id].next) && id !in old(running))
      ensures running == old(running) + if fired then {id} else {}
      ensures armed[id].ref in entries
      ensures var r := armed[id].ref;
              Views() == if fired then old(Views())[r := Advance(env, old(Views())[r], now)] else old(Views())
    {
      var e := armed[id];
      fired := now >= e.next && id !in running;
      if fired {
        running := running + {id};
        e.next, e.since := env.next(e.task.schedule, now), now;
      }
    }
  }

  /** Half way through a pass over `s` that still has `left` to look at: the due tasks seen
      are marked, collected once each and advanced, and nothing else moved. */
  ghost predicate HalfWay(env: Env, s: State, now: nat, left: set<string>, heap: map<nat, Entry>, running: set<string>,
                          toRun: seq<Task>) {
    && Advanced(env, s, now, left, heap)
    && running == s.running + (DueIds(s, now) - left)
    && Collected(s, now, left, toRun)
  }

  ghost predicate Advanced(env: Env, s: State, now: nat, left: set<string>, heap: map<nat, Entry>) {
    && heap.Keys == s.heap.Keys
    && forall r :: r in s.heap ==>
         heap[r] == if FiredRef(s, now, r) && s.heap[r].task.id !in left then Advance(env, s.heap[r], now) else s.heap[r]
  }

  lemma AdvancedOne(env: Env, s: State, now: nat, left: set<string>, heap: map<nat, Entry>, id: string)
    requires Points(s.heap, s.armed) && id in s.armed && id in left && Advanced(env, s, now, left, heap)
    ensures var r := s.armed[id];
            && r in heap
            && heap[r] == s.heap[r]
            && Advanced(env, s, now, left - {id}, if IsDue(s, now, id) then heap[r := Advance(env, heap[r], now)] else heap)
  {
  }

  /** `toRun` lists the due tasks that are no longer `left`, each once. */
  ghost predicate Collected(s: State, now: nat, left: set<string>, toRun: seq<Task>) {
    && (forall i :: 0 <= i < |toRun| ==>
          toRun[i].id in DueIds(s, now) && toRun[i].id !in left && toRun[i] == s.heap[s.armed[toRun[i].id]].task)
    && (forall id :: id in DueIds(s, now) && id !in left ==> exists i :: 0 <= i < |toRun| && toRun[i].id == id)
    && (forall i, j :: 0 <= i < j < |toRun| ==> toRun[i].id != toRun[j].id)
  }

  lemma MatchArms(env: Env, s: State)
    requires s.sync.Some? && s.sync.value.todo != []
    requires !Unchanged(s, s.sync.value.todo[0]) && env.parses(s.sync.value.todo[0].schedule)
    ensures var y := s.sync.value;
            var t := y.todo[0];
            MatchOne(env, s) == s.(heap := s.heap[s.made := Entry(t, env.next(t.schedule, y.now), y.now, y.now)],
                                   made := s.made + 1, sync := Some(Sync(y.now, y.todo[1..], y.next[t.id := s.made])))
  {
  }

  lemma MatchSteps(env: Env, s: State)
    requires s.sync.Some? && s.sync.value.todo != []
    ensures Step(env, s, SyncTask) == MatchOne(env, s)
  {
  }

  lemma PassBegins(env: Env, s: State, now: nat)
    requires Points(s.heap, s.armed)
    ensures HalfWay(env, s, now, s.armed.Keys, s.heap, s.running, [])
  {
  }

  lemma CollectedOne(s: State, now: nat, left: set<string>, id: string, toRun: seq<Task>)
    requires Collected(s, now, left, toRun) && id in left && id in DueIds(s, now) && s.heap[s.armed[id]].task.id == id
    ensures Collected(s, now, left - {id}, toRun + [s.heap[s.armed[id]].task])
  {
    var ts := toRun + [s.heap[s.armed[id]].task];
    assert ts[|toRun|].id == id;
    forall k | k in DueIds(s, now) && k !in left - {id} ensures exists i :: 0 <= i < |ts| && ts[i].id == k {
      if k != id {
        var i :| 0 <= i < |toRun| && toRun[i].id == k;
        assert ts[i].id == k;
      }
    }
  }

  /** Visiting one more armed task. */
  lemma PassVisits(env: Env, s: State, now: nat, left: set<string>, id: string, heap: map<nat, Entry>, running: set<string>,
                   toRun: seq<Task>)
    requires Points(s.heap, s.armed) && id in s.armed && id in left
    requires HalfWay(env, s, now, left, heap, running, toRun)
    ensures var r := s.armed[id];
            && r in heap
            && heap[r] == s.heap[r]
            && var fired := now >= heap[r].next && id !in running;
            HalfWay(env, s, now, left - {id}, if fired then heap[r := Advance(env, heap[r], now)] else heap,
                    running + (if fired then {id} else {}), if fired then toRun + [heap[r].task] else toRun)
  {
    var r := s.armed[id];
    AdvancedOne(env, s, now, left, heap, id);
    var fired := now >= heap[r].next && id !in running;
    assert fired == (id in DueIds(s, now));
    hide Collected; hide Advanced; hide Points; hide IsDue; hide FireRuns;
    if fired {
      CollectedOne(s, now, left, id, toRun);
    } else {
      CollectedNone(s, now, left, id, toRun);
    }
  }

  lemma CollectedNone(s: State, now: nat, left: set<string>, id: string, toRun: seq<Task>)
    requires Collected(s, now, left, toRun) && id !in DueIds(s, now)
    ensures Collected(s, now, left - {id}, toRun)
  {
  }

  lemma PassEnds(env: Env, s: State, now: nat, t: State, toRun: seq<Task>)
    requires HalfWay(env, s, now, {}, t.heap, t.running, toRun)
    requires t.armed == s.armed && t.sync == s.sync && t.made == s.made && t.active == s.active + multiset(DueIds(s, now))
    requires t.runs == FireRuns(s, now)
    ensures t == Step(env, s, Event.FireDue(now))
    ensures Collected(s, now, {}, toRun)
  {
    hide FireRuns; hide Collected; hide IsDue;
    FireHeap(env, s, now);
    assert t.heap == Fire(env, s, now).heap;
  }
}
