/** Which wanted records can still appear: for every state the reconciler can be in, the
    sweeper alone can make the provider hold the wanted record exactly under a condition on
    rows, records and the turn in progress. */
module DnsWanted {
  import opened Common
  import opened Dns
  import opened DnsConverge

  /** The row stores the id of a record that is the wanted one. */
  predicate Served(s: State, k: nat) {
    && k in s.rows && s.rows[k].present && s.rows[k].rid.Some?
    && s.rows[k].rid.value in s.zone && s.zone[s.rows[k].rid.value] == Wanted(s.rows[k])
  }

  /** Row `j` is queued as a tombstone and its turn can still delete its record. */
  ghost predicate Turn(s: State, j: nat) {
    exists i :: 0 <= i < |s.queue| && TurnAt(s, j, i)
  }

  predicate TurnAt(s: State, j: nat, i: int)
    requires 0 <= i < |s.queue|
  {
    s.queue[i].id == j && !s.queue[i].present && !(i == 0 && s.phase.Failing?)
  }

  ghost predicate Reapable(s: State, j: nat)
    requires j in s.rows
  {
    (!s.rows[j].present && s.rows[j].next.Some?) || Turn(s, j)
  }

  /** The record belongs to a tombstone that can still be reaped. */
  ghost predicate Doomed(s: State, x: Rid) {
    exists j :: j in s.rows && s.rows[j].rid == Some(x) && Reapable(s, j)
  }

  ghost predicate NoMatch(s: State, w: Rec) { forall x :: x in s.zone ==> s.zone[x] != w }

  ghost predicate AllDoomed(s: State, key: string) {
    forall x :: x in s.zone && s.zone[x].key == key ==> Doomed(s, x)
  }

  /** The sweeper is about to create this row's record, with the content still wanted. */
  predicate Pending(s: State, k: nat, w: Rec) {
    s.queue != [] && Head(s).id == k && s.phase.Missing? && Head(s).content == w.content
  }

  /** The exact condition for a present row. */
  ghost predicate Can(s: State, k: nat)
    requires k in s.rows
  {
    var r := s.rows[k];
    if r.rid.Some? then Served(s, k)
    else r.next.Some? && (!NoMatch(s, Wanted(r)) || AllDoomed(s, r.key) || Pending(s, k, Wanted(r)))
  }

  // ------------------------------------------------------------------ when it cannot

  ghost predicate Wants(s: State, k: nat, w: Rec) { k in s.rows && s.rows[k].present && Wanted(s.rows[k]) == w }

  ghost predicate Blocks(s: State, w: Rec, x: Rid) { x in s.zone && s.zone[x].key == w.key && !Doomed(s, x) }

  /** A foreign record holds the name and nothing under way removes it or passes it by. */
  ghost predicate Blocked(s: State, k: nat, w: Rec, x: Rid) {
    && Wants(s, k, w) && s.rows[k].rid.None? && s.rows[k].next.Some?
    && NoMatch(s, w) && Blocks(s, w, x) && !Pending(s, k, w)
  }

  /** The row stores the id of something else, or has no attempt left. */
  ghost predicate Stuck(s: State, k: nat, w: Rec) {
    && Wants(s, k, w)
    && (if s.rows[k].rid.Some? then !(s.rows[k].rid.value in s.zone && s.zone[s.rows[k].rid.value] == w)
        else s.rows[k].next.None?)
  }

  ghost predicate Hopeless(s: State, k: nat, w: Rec) {
    k !in s.rows || Stuck(s, k, w) || exists x :: Blocked(s, k, w, x)
  }

  lemma CallStuck(s: State, e: Event, k: nat, w: Rec)
    requires Steady(s) && Stuck(s, k, w) && IsSweep(e) && !e.Mark? && !e.Drop? && !e.Fail?
    ensures Stuck(Step(s, e), k, w)
  {
    NotUpdating(s);
    hide Fresh; hide Accounted; hide Armed; hide InPhase;
    var t := Step(s, e);
    assert t.rows == s.rows;
    if s.rows[k].rid.Some? {
      assert s.rows[k].rid.value in s.used;
    }
  }

  lemma NotUpdating(s: State)
    requires Steady(s)
    ensures !MayUpdate(s)
  {
    if s.queue != [] {
      FreshFacts(s);
    }
  }

  lemma WriteStuck(s: State, e: Event, k: nat, w: Rec)
    requires Steady(s) && Stuck(s, k, w) && (e.Mark? || e.Drop? || e.Fail?)
    ensures k !in Step(s, e).rows || Stuck(Step(s, e), k, w)
  {
    var t := Step(s, e);
    if s.queue == [] {
      assert t == s;
    } else {
      HeadOnly(s, e);
      if Head(s).id == k {
        FreshFacts(s);
        HeadFacts(s);
        assert s.rows[s.queue[0].id].next.Some?;
        OwnWrite(s, e, k);
      }
      hide Step; hide Steady;
    }
  }

  /** What a write does to the head's own row. */
  lemma OwnWrite(s: State, e: Event, k: nat)
    requires Steady(s) && s.queue != [] && Head(s).id == k && k in s.rows && s.rows[k].id == k && (e.Mark? || e.Drop? || e.Fail?)
    ensures var t := Step(s, e);
            k in t.rows ==>
              && t.rows[k].present == s.rows[k].present && Wanted(t.rows[k]) == Wanted(s.rows[k])
              && (t.rows[k].rid == s.rows[k].rid || (e.Mark? && t.rows[k].rid == Marking(s) && Head(s).rid.None?))
              && (t.rows[k].rid == s.rows[k].rid && t.rows[k].next != s.rows[k].next ==> e.Fail?)
  {
    FreshFacts(s);
    hide Steady; hide Backoff;
  }

  /** What is about to be deleted was doomed: queues and phases only run down. */
  lemma TurnShrinks(s: State, t: State, j: nat)
    requires Turn(t, j)
    requires (t.queue == s.queue && (s.phase.Failing? ==> t.phase.Failing?)) || (s.queue != [] && t.queue == s.queue[1..])
    ensures Turn(s, j)
  {
    var i :| 0 <= i < |t.queue| && TurnAt(t, j, i);
    if t.queue == s.queue {
      assert TurnAt(s, j, i);
    } else {
      assert t.queue[i] == s.queue[i + 1];
      assert TurnAt(s, j, i + 1);
    }
  }

  lemma StillBlocks(s: State, t: State, w: Rec, x: Rid)
    requires Blocks(s, w, x) && x in t.zone && t.zone[x] == s.zone[x]
    requires (t.queue == s.queue && (s.phase.Failing? ==> t.phase.Failing?)) || (s.queue != [] && t.queue == s.queue[1..]) || t.queue == []
    requires forall j :: j in t.rows && t.rows[j].rid == Some(x) && ((!t.rows[j].present && t.rows[j].next.Some?) || Turn(t, j)) ==>
               j in s.rows && s.rows[j].rid == Some(x)
               && (!t.rows[j].present && t.rows[j].next.Some? ==> !s.rows[j].present && s.rows[j].next.Some?)
    ensures Blocks(t, w, x)
  {
    if Doomed(t, x) {
      var j :| j in t.rows && t.rows[j].rid == Some(x) && Reapable(t, j);
      if Turn(t, j) {
        assert t.queue != [];
        TurnShrinks(s, t, j);
      }
      assert Reapable(s, j);
    }
  }

  lemma CallBlocked(s: State, e: Event, k: nat, w: Rec, x: Rid)
    requires Steady(s) && Blocked(s, k, w, x) && (e.Create? || e.Delete? || e.Update? || e.CallError? || e.Crash? || e.Find?)
    ensures Blocked(Step(s, e), k, w, x)
  {
    NotUpdating(s);
    var t := Step(s, e);
    CallFrame(s, e, k, w, x);
    hide Step;
    StillBlocks(s, t, w, x);
  }

  lemma HeadDoomed(s: State)
    requires Steady(s) && MayDelete(s)
    ensures Doomed(s, Head(s).rid.value)
  {
    FreshFacts(s);
    assert TurnAt(s, Head(s).id, 0);
    assert Reapable(s, Head(s).id);
  }

  /** A record created under the name of a blocked row is not the wanted one. */
  lemma CreatesOther(s: State, k: nat, w: Rec)
    requires Steady(s) && Wants(s, k, w) && !Pending(s, k, w) && s.queue != [] && s.phase.Missing?
    ensures Wanted(Head(s)) != w
  {
    HeadKey(s);
    assert Tidy(s);
    hide Steady;
  }

  lemma DeleteFrame(s: State, e: Event, w: Rec, x: Rid)
    requires Steady(s) && NoMatch(s, w) && Blocks(s, w, x) && e.Delete?
    ensures var t := Step(s, e);
            && t.rows == s.rows && x in t.zone && t.zone[x] == s.zone[x] && NoMatch(t, w)
            && t.queue == s.queue && (t.phase == s.phase || t.phase.Gone? || t.phase.Failing?)
  {
    if MayDelete(s) {
      HeadDoomed(s);
    }
    hide Steady; hide Doomed;
  }

  lemma CreateFrame(s: State, e: Event, k: nat, w: Rec, x: Rid)
    requires Steady(s) && Blocked(s, k, w, x) && e.Create?
    ensures var t := Step(s, e);
            && t.rows == s.rows && x in t.zone && t.zone[x] == s.zone[x] && NoMatch(t, w)
            && t.queue == s.queue && (t.phase == s.phase || t.phase.Made? || t.phase.Failing?)
  {
    if s.queue != [] && s.phase.Missing? {
      CreatesOther(s, k, w);
    }
    assert x in s.used by { assert Tidy(s); }
    hide Steady; hide Doomed; hide Wants;
  }

  lemma ZoneFrame(s: State, e: Event, k: nat, w: Rec, x: Rid)
    requires Steady(s) && Blocked(s, k, w, x) && (e.Create? || e.Delete?)
    ensures var t := Step(s, e);
            && t.rows == s.rows && x in t.zone && t.zone[x] == s.zone[x] && NoMatch(t, w) && !Pending(t, k, w)
            && t.queue == s.queue && (s.phase.Failing? ==> t.phase.Failing?)
  {
    if e.Create? {
      CreateFrame(s, e, k, w, x);
      FailingStays(s, e);
    } else {
      DeleteFrame(s, e, w, x);
      FailingStays(s, e);
    }
    hide Step; hide Steady; hide Doomed;
  }

  lemma FailingStays(s: State, e: Event)
    requires e.Create? || e.Delete?
    ensures s.phase.Failing? ==> Step(s, e) == s
  {
  }

  lemma CallFrame(s: State, e: Event, k: nat, w: Rec, x: Rid)
    requires Steady(s) && Blocked(s, k, w, x) && !MayUpdate(s)
    requires e.Create? || e.Delete? || e.Update? || e.CallError? || e.Crash? || e.Find?
    ensures var t := Step(s, e);
            && t.rows == s.rows && x in t.zone && t.zone[x] == s.zone[x] && NoMatch(t, w) && !Pending(t, k, w)
            && ((t.queue == s.queue && (s.phase.Failing? ==> t.phase.Failing?)) || t.queue == [])
  {
    if e.Create? || e.Delete? {
      ZoneFrame(s, e, k, w, x);
    } else {
      if s.queue != [] {
        HeadKey(s);
      }
      hide Steady; hide Doomed;
    }
  }

  lemma ListBlocked(s: State, e: Event, k: nat, w: Rec, x: Rid)
    requires Steady(s) && Blocked(s, k, w, x) && e.List?
    ensures Blocked(Step(s, e), k, w, x)
  {
    var t := Step(s, e);
    if t != s {
      assert t == s.(queue := t.queue) && s.queue == [] && s.phase.Begin? by { hide Doomed; IdleBegins(s); }
      if Doomed(t, x) {
        ListDooms(s, e, x);
      }
      hide Step; hide Doomed; hide Steady;
    }
  }

  lemma ListDooms(s: State, e: Event, x: Rid)
    requires Sound(s) && e.List? && Step(s, e) != s && Doomed(Step(s, e), x)
    ensures Doomed(s, x)
  {
    var t := Step(s, e);
    assert t.rows == s.rows;
    var j :| j in t.rows && t.rows[j].rid == Some(x) && Reapable(t, j);
    if Turn(t, j) {
      ListedTomb(s, e, j);
    }
    assert Reapable(s, j);
  }

  lemma IdleBegins(s: State)
    requires Sound(s) && s.queue == []
    ensures s.phase.Begin?
  {
  }

  /** Only tombstones with a next attempt are listed as tombstones. */
  lemma ListedTomb(s: State, e: Event, j: nat)
    requires Sound(s) && e.List? && Step(s, e) != s && Turn(Step(s, e), j) && j in s.rows
    ensures !s.rows[j].present && s.rows[j].next.Some?
  {
    var t := Step(s, e);
    var i :| 0 <= i < |t.queue| && TurnAt(t, j, i);
    assert t.queue[i] == s.rows[e.picked[i]] && Due(s.rows[e.picked[i]], e.now);
    assert Tidy(s);
  }

  lemma WriteBlocked(s: State, e: Event, k: nat, w: Rec, x: Rid)
    requires Steady(s) && Blocked(s, k, w, x) && (e.Mark? || e.Drop? || e.Fail?)
    ensures Hopeless(Step(s, e), k, w)
  {
    var t := Step(s, e);
    if s.queue == [] {
      assert t == s;
      assert Blocked(t, k, w, x);
    } else {
      HeadOnly(s, e);
      HeadFacts(s);
      OwnWrite(s, e, Head(s).id);
      if t.queue == s.queue {
        hide Step; hide Steady;
        StillBlocks(s, t, w, x);
        assert Blocked(t, k, w, x);
      } else {
        PoppedBlocks(s, e, t, w, x);
        if k in t.rows {
          WriteKeepsWish(s, e, k, w);
          hide Step; hide Steady; hide Doomed;
          if t.rows[k].rid.None? && t.rows[k].next.Some? {
            assert Blocked(t, k, w, x);
          } else {
            assert Stuck(t, k, w);
          }
        }
      }
    }
  }

  /** The wish of a row survives every write, and an id it stores is not of the wanted record. */
  lemma WriteKeepsWish(s: State, e: Event, k: nat, w: Rec)
    requires Steady(s) && Wants(s, k, w) && s.rows[k].rid.None? && s.queue != [] && (e.Mark? || e.Drop? || e.Fail?)
    ensures k in Step(s, e).rows ==> Wants(Step(s, e), k, w)
  {
    HeadOnly(s, e);
    HeadFacts(s);
    OwnWrite(s, e, Head(s).id);
    hide Step; hide Steady;
  }

  lemma PoppedBlocks(s: State, e: Event, t: State, w: Rec, x: Rid)
    requires Steady(s) && s.queue != [] && (e.Mark? || e.Drop? || e.Fail?) && t == Step(s, e) && t.queue == s.queue[1..]
    requires Blocks(s, w, x)
    ensures Blocks(t, w, x)
  {
    HeadOnly(s, e);
    if Doomed(t, x) {
      PoppedDooms(s, e, t, x);
    }
    hide Step; hide Steady; hide Doomed;
  }

  lemma PoppedDooms(s: State, e: Event, t: State, x: Rid)
    requires Steady(s) && s.queue != [] && (e.Mark? || e.Drop? || e.Fail?) && t == Step(s, e) && t.queue == s.queue[1..]
    requires Doomed(t, x)
    ensures Doomed(s, x)
  {
    HeadOnly(s, e);
    HeadFacts(s);
    assert s.rows[s.queue[0].id].next.Some?;
    HeadAfter(s, e, x);
    NotQueuedAgain(s, t);
    hide Step; hide Steady;
    var j :| j in t.rows && t.rows[j].rid == Some(x) && Reapable(t, j);
    if Turn(t, j) {
      TurnShrinks(s, t, j);
      assert j != Head(s).id;
    }
    assert Reapable(s, j);
  }

  /** If the head's row stores `x` and has a next attempt after its turn, it did before. */
  lemma HeadAfter(s: State, e: Event, x: Rid)
    requires Steady(s) && s.queue != [] && (e.Mark? || e.Drop? || e.Fail?) && Step(s, e).queue == s.queue[1..]
    ensures var t, j := Step(s, e), Head(s).id;
            j in t.rows && t.rows[j].rid == Some(x) && t.rows[j].next.Some? ==>
              j in s.rows && s.rows[j].rid == Some(x) && t.rows[j].present == s.rows[j].present
  {
    HeadFacts(s);
    hide Steady; hide Backoff;
  }

  lemma NotQueuedAgain(s: State, t: State)
    requires Fresh(s) && s.queue != [] && t.queue == s.queue[1..]
    ensures !Turn(t, Head(s).id)
  {
    forall i | 0 <= i < |t.queue| ensures !TurnAt(t, Head(s).id, i) {
      assert t.queue[i] == s.queue[i + 1];
    }
  }

  lemma HopelessStep(s: State, e: Event, k: nat, w: Rec)
    requires Steady(s) && Hopeless(s, k, w) && IsSweep(e)
    ensures Hopeless(Step(s, e), k, w)
  {
    hide Steady;
    if k !in s.rows {
      NeverInserted(s, e, k);
    } else if Stuck(s, k, w) {
      hide Step; hide Stuck;
      if e.Mark? || e.Drop? || e.Fail? {
        WriteStuck(s, e, k, w);
      } else {
        CallStuck(s, e, k, w);
      }
    } else {
      var x :| Blocked(s, k, w, x);
      hide Step; hide Blocked;
      if e.Mark? || e.Drop? || e.Fail? {
        WriteBlocked(s, e, k, w, x);
      } else if e.List? {
        ListBlocked(s, e, k, w, x);
      } else {
        CallBlocked(s, e, k, w, x);
      }
    }
  }

  lemma NeverInserted(s: State, e: Event, k: nat)
    requires Steady(s) && k !in s.rows && IsSweep(e)
    ensures k !in Step(s, e).rows
  {
    if s.queue != [] {
      HeadFacts(s);
    }
    hide Steady; hide Backoff;
  }

  lemma {:induction false} HopelessStays(s: State, events: seq<Event>, k: nat, w: Rec)
    requires Steady(s) && Hopeless(s, k, w) && Sweeping(events)
    ensures Hopeless(ExecFrom(s, events), k, w)
  {
    if events != [] {
      var init := events[..|events| - 1];
      hide Step; hide Hopeless; hide Steady; hide IsSweep;
      assert Sweeping(init) && IsSweep(events[|events| - 1]);
      HopelessStays(s, init, k, w);
      LeadsSteady(s, init);
      HopelessStep(ExecFrom(s, init), events[|events| - 1], k, w);
    }
  }

  lemma HopelessNotServed(s: State, k: nat, w: Rec)
    requires Hopeless(s, k, w)
    ensures !Served(s, k)
  {
    hide Doomed;
  }

  // --------------------------------------------------------------------- when it can

  /** One turn of the sweeper to its end: a queued tombstone is reaped if its delete has not
      failed yet, and any other turn can end without touching rows or records. */
  ghost predicate TurnEnds(s: State, t: State)
    requires s.queue != []
  {
    && Leads(s, t) && Steady(t) && t.queue == s.queue[1..] && t.phase.Begin?
    && (if !Head(s).present && !s.phase.Failing? && Head(s).rid.Some?
        then t.rows == s.rows - {Head(s).id} && t.zone == s.zone - {Head(s).rid.value}
        else t.rows == s.rows && t.zone == s.zone)
  }

  lemma GoOn(s: State, t: State, e: Event) returns (u: State)
    requires Leads(s, t) && Steady(t) && IsSweep(e)
    ensures u == Step(t, e) && Leads(s, u) && Steady(u)
  {
    hide Steady; hide Step; hide Leads;
    LeadsStep(s, t, e);
    StepSteady(t, e);
    u := Step(t, e);
  }

  lemma GiveUpTurn(s: State, f: State) returns (t: State)
    requires Leads(s, f) && Steady(f) && s.queue != [] && f.queue == s.queue && f.phase.Failing?
    ensures Leads(s, t) && Steady(t) && t.queue == s.queue[1..] && t.phase.Begin? && t.rows == f.rows && t.zone == f.zone
  {
    t := GoOn(s, f, Fail(0, false));
    hide Leads; hide Steady;
  }

  lemma EndTombTurn(s: State) returns (t: State)
    requires Steady(s) && s.queue != [] && !Head(s).present
    ensures TurnEnds(s, t)
  {
    LeadsSelf(s);
    FreshFacts(s);
    assert s.phase.Begin? || s.phase.Gone? || s.phase.Failing?;
    if s.phase.Failing? {
      t := GiveUpTurn(s, s);
    } else {
      assert s.phase.Gone? ==> s.zone - {Head(s).rid.value} == s.zone;
      hide Leads; hide Steady;
      t := s;
      if s.phase.Begin? {
        t := GoOn(s, s, Delete(Reply.Ok));
      }
      t := GoOn(s, t, Drop(true));
    }
  }

  lemma EndWishTurn(s: State) returns (t: State)
    requires Steady(s) && s.queue != [] && Head(s).present
    ensures TurnEnds(s, t)
  {
    LeadsSelf(s);
    FreshFacts(s);
    NotUpdating(s);
    assert !s.phase.Gone? && !s.phase.Updated?;
    Unused(s.used);
    hide Leads; hide Steady;
    var f := s;
    if s.phase.Begin? {
      f := GoOn(s, s, CallError);
    } else if s.phase.Missing? {
      var made :| made !in s.used;
      f := GoOn(s, s, Create(made, Reply.Refused));
    } else if Marking(s).Some? {
      f := GoOn(s, s, Mark(false));
    } else if s.phase.Found? {
      f := GoOn(s, s, CallError);
    }
    t := GiveUpTurn(s, f);
  }

  lemma EndTurn(s: State) returns (t: State)
    requires Steady(s) && s.queue != []
    ensures TurnEnds(s, t)
  {
    hide Steady; hide TurnEnds;
    if Head(s).present {
      t := EndWishTurn(s);
    } else {
      t := EndTombTurn(s);
    }
  }

  /** The whole queue to its end. */
  ghost predicate Drained(s: State, t: State) {
    && Leads(s, t) && Steady(t) && t.queue == [] && t.phase.Begin?
    && (forall j :: j in s.rows && !Turn(s, j) ==> j in t.rows && t.rows[j] == s.rows[j])
    && (forall j :: j in s.rows && Turn(s, j) && s.rows[j].rid.Some? ==> s.rows[j].rid.value !in t.zone)
    && (forall x :: x in t.zone ==> x in s.zone && t.zone[x] == s.zone[x])
  }

  lemma LeadsTrans(s: State, t: State, u: State)
    requires Leads(s, t) && Leads(t, u)
    ensures Leads(s, u)
  {
    var a :| Sweeping(a) && ExecFrom(s, a) == t;
    var b :| Sweeping(b) && ExecFrom(t, b) == u;
    hide ExecFrom; hide IsSweep;
    ExecConcat(s, a, b);
    assert Sweeping(a + b);
  }

  lemma {:induction false} Drain(s: State) returns (t: State)
    requires Steady(s)
    ensures Drained(s, t)
    decreases |s.queue|
  {
    if s.queue == [] {
      t := s;
      LeadsSelf(s);
      IdleBegins(s);
      hide Steady; hide Leads;
    } else {
      var u := EndTurn(s);
      FreshFacts(s);
      NotQueuedAgain(s, u);
      t := Drain(u);
      hide Steady; hide Leads;
      assert Leads(s, t) by { LeadsTrans(s, u, t); }
      DrainStep(s, u, t);
    }
  }

  lemma TurnSplits(s: State, u: State, j: nat)
    requires s.queue != [] && u.queue == s.queue[1..] && u.phase.Begin?
    ensures Turn(s, j) <==> (Head(s).id == j && !Head(s).present && !s.phase.Failing?) || Turn(u, j)
  {
    if Head(s).id == j && !Head(s).present && !s.phase.Failing? {
      assert TurnAt(s, j, 0);
    }
    if Turn(u, j) {
      TurnShrinks(s, u, j);
    }
    if Turn(s, j) {
      var i :| 0 <= i < |s.queue| && TurnAt(s, j, i);
      if i > 0 {
        assert u.queue[i - 1] == s.queue[i] && TurnAt(u, j, i - 1);
      }
    }
  }

  lemma DrainKeeps(s: State, u: State, t: State, j: nat)
    requires s.queue != [] && TurnEnds(s, u) && Drained(u, t) && j in s.rows && !Turn(s, j)
    requires !Head(s).present ==> Head(s).rid.Some?
    ensures j in t.rows && t.rows[j] == s.rows[j]
  {
    hide Steady; hide Leads; hide Turn;
    TurnSplits(s, u, j);
  }

  lemma DrainReaps(s: State, u: State, t: State, j: nat)
    requires s.queue != [] && TurnEnds(s, u) && Drained(u, t) && j in s.rows && Turn(s, j) && s.rows[j].rid.Some?
    requires Head(s).id == j ==> Head(s).rid == s.rows[j].rid
    ensures s.rows[j].rid.value !in t.zone
  {
    hide Steady; hide Leads; hide Turn;
    TurnSplits(s, u, j);
    if Head(s).id == j && !Head(s).present && !s.phase.Failing? {
      assert s.rows[j].rid.value !in u.zone;
    }
  }

  lemma DrainStep(s: State, u: State, t: State)
    requires Steady(s) && s.queue != [] && TurnEnds(s, u) && Drained(u, t) && Leads(s, t)
    ensures Drained(s, t)
  {
    FreshFacts(s);
    hide Leads; hide Turn; hide Steady;
    forall j | j in s.rows && !Turn(s, j) ensures j in t.rows && t.rows[j] == s.rows[j] {
      DrainKeeps(s, u, t, j);
    }
    forall j | j in s.rows && Turn(s, j) && s.rows[j].rid.Some? ensures s.rows[j].rid.value !in t.zone {
      DrainReaps(s, u, t, j);
    }
    DrainZone(s, u, t);
    hide TurnEnds;
  }

  lemma DrainZone(s: State, u: State, t: State)
    requires s.queue != [] && TurnEnds(s, u) && Drained(u, t)
    ensures Steady(t) && t.queue == [] && t.phase.Begin?
    ensures forall x :: x in t.zone ==> x in s.zone && t.zone[x] == s.zone[x]
  {
    hide Leads; hide Turn; hide Steady;
  }

  /** An idle sweeper, and a wish without an id that has a next attempt. */
  ghost predicate Ready(s: State, k: nat, w: Rec) {
    && Steady(s) && s.queue == [] && s.phase.Begin?
    && Wants(s, k, w) && s.rows[k].rid.None? && s.rows[k].next.Some?
  }

  ghost predicate Reaps(s: State, x: Rid, j: nat) {
    j in s.rows && s.rows[j].rid == Some(x) && !s.rows[j].present && s.rows[j].next.Some?
  }

  /** Every record under the name belongs to a tombstone with a next attempt. */
  ghost predicate AllReap(s: State, key: string) {
    forall x :: x in s.zone && s.zone[x].key == key ==> exists j :: Reaps(s, x, j)
  }

  lemma ReapOne(s: State, k: nat, w: Rec, x: Rid) returns (t: State)
    requires Ready(s, k, w) && AllReap(s, w.key) && x in s.zone && s.zone[x].key == w.key
    ensures Leads(s, t) && Ready(t, k, w) && AllReap(t, w.key) && t.zone == s.zone - {x}
  {
    var j :| Reaps(s, x, j);
    var now := s.rows[j].next.value;
    LeadsSelf(s);
    assert Tidy(s);
    ReapIdle(s, j, now);
    hide Steady; hide Leads;
    t := GoOn(s, s, List([j], now));
    t := GoOn(s, t, Delete(Reply.Ok));
    t := GoOn(s, t, Drop(true));
    hide Step;
    assert t == s.(rows := s.rows - {j}, zone := s.zone - {x});
    forall y | y in t.zone && t.zone[y].key == w.key ensures exists i :: Reaps(t, y, i) {
      var i :| Reaps(s, y, i);
      assert Reaps(t, y, i);
    }
  }

  lemma {:induction false} ReapAll(s: State, k: nat, w: Rec) returns (t: State)
    requires Ready(s, k, w) && AllReap(s, w.key)
    ensures Leads(s, t) && Ready(t, k, w) && forall x :: x in t.zone ==> t.zone[x].key != w.key
    decreases |s.zone|
  {
    hide Ready; hide Leads;
    if x :| x in s.zone && s.zone[x].key == w.key {
      var u := ReapOne(s, k, w, x);
      hide AllReap;
      assert |u.zone.Keys| < |s.zone.Keys| by { assert u.zone.Keys == s.zone.Keys - {x}; }
      assert |u.zone| == |u.zone.Keys| && |s.zone| == |s.zone.Keys|;
      t := ReapAll(u, k, w);
      LeadsTrans(s, u, t);
    } else {
      t := s;
      LeadsSelf(s);
    }
  }

  /** With the name free, the sweeper creates and marks the wanted record. */
  lemma CreateFree(s: State, k: nat, w: Rec) returns (t: State)
    requires Ready(s, k, w) && forall x :: x in s.zone ==> s.zone[x].key != w.key
    ensures Leads(s, t) && Served(t, k)
  {
    LeadsSelf(s);
    assert Tidy(s) && s.rows[k].id == k;
    Unused(s.used);
    var made :| made !in s.used;
    var now := s.rows[k].next.value;
    hide Steady; hide Leads;
    t := GoOn(s, s, List([k], now));
    assert t == s.(queue := [s.rows[k]]);
    t := GoOn(s, t, Find(None));
    assert t == s.(queue := [s.rows[k]], phase := Missing);
    t := MakeAndMark(s, t, k, w, made);
  }

  /** From the create on, if the content is still the wanted one. */
  lemma MakeAndMark(s: State, p: State, k: nat, w: Rec, made: Rid) returns (t: State)
    requires Leads(s, p) && Steady(p) && Wants(p, k, w) && p.rows[k].id == k && made !in p.used
    requires p.queue != [] && Head(p).id == k && Wanted(Head(p)) == w && p.phase.Missing?
    ensures Leads(s, t) && Served(t, k)
  {
    hide Steady; hide Leads;
    t := GoOn(s, p, Create(made, Reply.Ok));
    assert t.rows == p.rows && t.queue == p.queue && t.zone == p.zone[made := w] && t.phase == Made(made);
    t := GoOn(s, t, Mark(true));
  }

  /** A record that is already the wanted one is adopted. */
  lemma Adopt(s: State, k: nat, w: Rec, x: Rid) returns (t: State)
    requires Steady(s) && Wants(s, k, w) && s.rows[k].rid.None? && s.rows[k].next.Some? && x in s.zone && s.zone[x] == w
    ensures Leads(s, t) && Served(t, k)
  {
    LeadsSelf(s);
    assert Tidy(s) && s.rows[k].id == k;
    var now := s.rows[k].next.value;
    hide Steady; hide Leads;
    t := GoOn(s, s, Crash);
    var idle := t;
    assert t.rows == s.rows && t.zone == s.zone && t.queue == [] && t.phase.Begin?;
    t := GoOn(s, t, List([k], now));
    assert t == idle.(queue := [s.rows[k]]);
    t := GoOn(s, t, Find(Some(x)));
    assert t == idle.(queue := [s.rows[k]], phase := Found(x, w));
    t := GoOn(s, t, Mark(true));
  }

  /** Draining the queue leaves every doomed record under a tombstone with a next attempt, or
      gone. */
  lemma DrainReady(s: State, k: nat, w: Rec) returns (t: State)
    requires Steady(s) && Wants(s, k, w) && s.rows[k].rid.None? && s.rows[k].next.Some? && AllDoomed(s, w.key)
    ensures Leads(s, t) && Ready(t, k, w) && AllReap(t, w.key)
  {
    t := Drain(s);
    WishNoTurn(s, k);
    hide Steady; hide Leads; hide Turn;
    forall x | x in t.zone && t.zone[x].key == w.key ensures exists j :: Reaps(t, x, j) {
      assert x in s.zone && Doomed(s, x);
      var j :| j in s.rows && s.rows[j].rid == Some(x) && Reapable(s, j);
      assert Reaps(t, x, j);
    }
  }

  /** A row that stores no id is never queued as a tombstone. */
  lemma WishNoTurn(s: State, k: nat)
    requires Fresh(s) && k in s.rows && s.rows[k].rid.None?
    ensures !Turn(s, k)
  {
  }

  lemma Reachable(s: State, k: nat) returns (t: State)
    requires Steady(s) && k in s.rows && s.rows[k].present && Can(s, k)
    ensures Leads(s, t) && Served(t, k)
  {
    var r := s.rows[k];
    var w := Wanted(r);
    if r.rid.Some? {
      t := s;
      LeadsSelf(s);
    } else if !NoMatch(s, w) {
      var x :| x in s.zone && s.zone[x] == w;
      t := Adopt(s, k, w, x);
    } else if Pending(s, k, w) {
      LeadsSelf(s);
      HeadKey(s);
      assert Tidy(s);
      Unused(s.used);
      var made :| made !in s.used;
      t := MakeAndMark(s, s, k, w, made);
    } else {
      var u := DrainReady(s, k, w);
      var v := ReapAll(u, k, w);
      t := CreateFree(v, k, w);
      hide Leads; hide Steady; hide AllReap; hide Ready; hide AllDoomed;
      LeadsTrans(s, u, v);
      LeadsTrans(s, v, t);
    }
  }

  lemma CannotIsHopeless(s: State, k: nat)
    requires k in s.rows && s.rows[k].present && !Can(s, k)
    ensures Hopeless(s, k, Wanted(s.rows[k]))
  {
    hide Doomed;
    var r := s.rows[k];
    var w := Wanted(r);
    if r.rid.Some? || r.next.None? {
      assert Stuck(s, k, w);
    } else {
      var x :| x in s.zone && s.zone[x].key == r.key && !Doomed(s, x);
      assert Blocked(s, k, w, x);
    }
  }

  /** For every reachable present row: some sweeper-only continuation makes the record it
      stores the wanted one, exactly when it already is; or when the row stores none, has a
      next attempt, and either the zone holds the wanted record, or every record under the
      name belongs to a tombstone that can still be reaped, or the sweeper is about to
      create it with the content still wanted. */
  lemma AppearsIff(events: seq<Event>, k: nat)
    requires k in Exec(events).rows && Exec(events).rows[k].present
    ensures (exists more :: Sweeping(more) && Served(Exec(events + more), k)) <==> Can(Exec(events), k)
  {
    var s := Exec(events);
    RunSteady(events);
    hide Exec; hide Steady;
    if Can(s, k) {
      var t := Reachable(s, k);
      var more :| Sweeping(more) && ExecFrom(s, more) == t;
      ExecOn(events, more);
      assert Sweeping(more) && Served(Exec(events + more), k);
    } else {
      var w := Wanted(s.rows[k]);
      CannotIsHopeless(s, k);
      hide Can; hide Hopeless; hide Served; hide Sweeping;
      forall more | Sweeping(more) ensures !Served(Exec(events + more), k) {
        ExecOn(events, more);
        HopelessStays(s, more, k, w);
        HopelessNotServed(ExecFrom(s, more), k, w);
      }
    }
  }
}
