/** The DNS reconciler (core/dns/reconcile.go, core/store/queries/dns.sql): one sweeper
    works through a snapshot of due rows, one provider or database call at a time, while
    operators change rows and provider records and the process can die between any two
    calls. A key stands for (zone, name, type). Times are seconds. */
module Dns {
  import opened Common

  const MAX_ATTEMPTS: int := 8
  const SWEEP_BATCH: nat := 50

  type Rid = nat

  datatype Rec = Rec(key: string, content: string)

  datatype Row = Row(id: nat, key: string, content: string, present: bool, rid: Option<Rid>, attempt: nat,
                     next: Option<int>)

  /** How a provider record came to be the reconciler's. */
  datatype Origin = Created | Adopted(found: Rec, wanted: Rec)

  /** Where the sweeper is in converging the first row of its queue. */
  datatype Phase = Begin | Found(rid: Rid, rec: Rec) | Missing | Made(rid: Rid) | Updated(rid: Rid) | Gone | Failing

  /** `ids` and `used` are the row and record ids ever given out; `origin` and `lost` are
      history: `lost` holds the records whose creation the sweeper did not get to mark. */
  datatype State = State(rows: map<nat, Row>, ids: set<nat>, zone: map<Rid, Rec>, used: set<Rid>,
                         queue: seq<Row>, phase: Phase, origin: map<Rid, Origin>, lost: set<Rid>)

  const START := State(map[], {}, map[], {}, [], Begin, map[], {})

  /** A provider write takes effect and is answered, is refused, or takes effect and its
      answer is lost. */
  datatype Reply = Ok | Refused | NoAnswer

  datatype Event =
    | Upsert(id: nat, key: string, content: string, now: int)
    | Tombstone(which: set<nat>, now: int)
    | Operator(rid: Rid, rec: Option<Rec>)
    | List(picked: seq<nat>, now: int)
    | Find(found: Option<Rid>)
    | Create(made: Rid, reply: Reply)
    | Update(reply: Reply)
    | Delete(reply: Reply)
    | Mark(ok: bool)
    | Drop(ok: bool)
    | Fail(now: int, ok: bool)
    | CallError
    | Crash

  // --------------------------------------------------------------------- steps

  function Wanted(r: Row): Rec { Rec(r.key, r.content) }

  /** backoffFor: thirty seconds doubled per attempt, at most an hour. */
  function Backoff(n: nat): int {
    if n >= 7 then 3600 else if n == 0 then 30 else 2 * Backoff(n - 1)
  }

  /** ListDueDNSRecords. */
  predicate Due(r: Row, now: int) {
    r.next.Some? && r.next.value <= now && (if r.present then r.rid.None? else r.rid.Some?)
  }

  predicate Distinct(ids: seq<nat>) {
    forall i, j :: 0 <= i < j < |ids| ==> ids[i] != ids[j]
  }

  predicate Listed(s: State, picked: seq<nat>, now: int) {
    Distinct(picked) && forall i :: 0 <= i < |picked| ==> picked[i] in s.rows && Due(s.rows[picked[i]], now)
  }

  function Snapshot(rows: map<nat, Row>, picked: seq<nat>): seq<Row>
    requires forall i :: 0 <= i < |picked| ==> picked[i] in rows
  {
    seq(|picked|, i requires 0 <= i < |picked| => rows[picked[i]])
  }

  function SetRow(s: State, r: Row): State { s.(rows := s.rows[r.id := r]) }

  /** UpsertDNSRecord: the row of that key is re-armed, or a new one is inserted. */
  function Upserted(s: State, id: nat, key: string, content: string, now: int): State {
    if id in s.rows && s.rows[id].key == key then
      SetRow(s, s.rows[id].(content := content, present := true, attempt := 0, next := Some(now)))
    else if id !in s.ids && forall k :: k in s.rows ==> s.rows[k].key != key then
      SetRow(s, Row(id, key, content, true, None, 0, Some(now))).(ids := s.ids + {id})
    else s
  }

  function Buried(r: Row, now: int): Row { r.(present := false, attempt := 0, next := Some(now)) }

  /** The tombstone statements: present rows of an application, environment or project, or
      of no application, become absent. */
  function Tombstoned(s: State, which: set<nat>, now: int): State {
    s.(rows := map k | k in s.rows :: if k in which && s.rows[k].present then Buried(s.rows[k], now) else s.rows[k])
  }

  function Edited(s: State, rid: Rid, rec: Option<Rec>): State {
    match rec
    case None => s.(zone := s.zone - {rid})
    case Some(r) => if rid in s.zone || rid !in s.used then s.(zone := s.zone[rid := r], used := s.used + {rid}) else s
  }

  function Advance(s: State): State
    requires s.queue != []
  {
    s.(queue := s.queue[1..], phase := Begin)
  }

  function Head(s: State): Row
    requires s.queue != []
  {
    s.queue[0]
  }

  /** FindRecord, and the branch taken on its answer. */
  function Looked(s: State, found: Option<Rid>): State
    requires s.queue != []
  {
    var r := Head(s);
    if found.Some? && found.value in s.zone && s.zone[found.value].key == r.key then
      s.(phase := Found(found.value, s.zone[found.value]))
    else if found.None? && forall k :: k in s.zone ==> s.zone[k].key != r.key then s.(phase := Missing)
    else s
  }

  function Make(s: State, made: Rid, reply: Reply): State
    requires s.queue != []
  {
    if made in s.used then s
    else
      var t := s.(zone := s.zone[made := Wanted(Head(s))], used := s.used + {made}, origin := s.origin[made := Created]);
      match reply
      case Ok => t.(phase := Made(made))
      case Refused => s.(phase := Failing)
      case NoAnswer => t.(phase := Failing, lost := s.lost + {made})
  }

  /** The update branch of converge: the record found is the one stored on the row. */
  predicate MayUpdate(s: State) {
    && s.queue != [] && s.phase.Found? && Head(s).present
    && s.phase.rec.content != Head(s).content && Head(s).rid == Some(s.phase.rid)
  }

  function Rewrite(s: State, reply: Reply): State
    requires MayUpdate(s)
  {
    var t := if s.phase.rid in s.zone then s.(zone := s.zone[s.phase.rid := Wanted(Head(s))]) else s;
    match reply
    case Ok => t.(phase := Updated(s.phase.rid))
    case Refused => s.(phase := Failing)
    case NoAnswer => t.(phase := Failing)
  }

  predicate MayDelete(s: State) {
    s.queue != [] && s.phase.Begin? && !Head(s).present && Head(s).rid.Some?
  }

  /** DeleteRecord; deleting a record that is gone already succeeds. */
  function Erase(s: State, reply: Reply): State
    requires MayDelete(s)
  {
    var t := s.(zone := s.zone - {Head(s).rid.value});
    match reply
    case Ok => t.(phase := Gone)
    case Refused => s.(phase := Failing)
    case NoAnswer => t.(phase := Failing)
  }

  /** The record id that the next Mark would store, if converge is at a Mark. */
  function Marking(s: State): Option<Rid> {
    if s.queue == [] then None
    else match s.phase
      case Found(rid, rec) => if Head(s).present && rec.content == Head(s).content then Some(rid) else None
      case Made(rid) => Some(rid)
      case Updated(rid) => Some(rid)
      case _ => None
  }

  /** MarkDNSRecordCreated. */
  function Marked(s: State, ok: bool): State
    requires Marking(s).Some?
  {
    var r, rid := Head(s), Marking(s).value;
    if ok && r.id in s.rows then
      var t := SetRow(s, s.rows[r.id].(rid := Some(rid), attempt := 0, next := None));
      Advance(if s.phase.Found? then t.(origin := s.origin[rid := if rid in s.origin then s.origin[rid]
                                                                  else Adopted(s.phase.rec, Wanted(r))]) else t)
    else s.(phase := Failing, lost := if s.phase.Made? then s.lost + {rid} else s.lost)
  }

  /** A tombstone with no stored id, or whose record was just deleted, is dropped. */
  predicate MayDrop(s: State) {
    s.queue != [] && (s.phase.Gone? || (s.phase.Begin? && !Head(s).present && Head(s).rid.None?))
  }

  function Dropped(s: State, ok: bool): State
    requires MayDrop(s)
  {
    if ok then Advance(s.(rows := s.rows - {Head(s).id})) else s.(phase := Failing)
  }

  /** FailDNSRecord: after the eighth attempt there is no next one. */
  function Failed(s: State, now: int, ok: bool): State
    requires s.queue != []
  {
    var r := Head(s);
    if ok && r.id in s.rows then
      var n := r.attempt + 1;
      Advance(SetRow(s, s.rows[r.id].(attempt := n, next := if n < MAX_ATTEMPTS then Some(now + Backoff(r.attempt)) else None)))
    else Advance(s)
  }

  /** A find or a conflict that ends this row's turn. */
  predicate MayFail(s: State) {
    s.queue != [] && ((s.phase.Begin? && Head(s).present) || (s.phase.Found? && Marking(s).None? && !MayUpdate(s)))
  }

  function Died(s: State): State {
    s.(queue := [], phase := Begin, lost := if s.phase.Made? then s.lost + {s.phase.rid} else s.lost)
  }

  function Step(s: State, e: Event): State {
    match e
    case Upsert(id, key, content, now) => Upserted(s, id, key, content, now)
    case Tombstone(which, now) => Tombstoned(s, which, now)
    case Operator(rid, rec) => Edited(s, rid, rec)
    case List(picked, now) =>
      if s.queue == [] && Listed(s, picked, now) then
        s.(queue := Snapshot(s.rows, picked))
      else s
    case Find(found) => if s.queue != [] && s.phase.Begin? && Head(s).present then Looked(s, found) else s
    case Create(made, reply) => if s.queue != [] && s.phase.Missing? then Make(s, made, reply) else s
    case Update(reply) => if MayUpdate(s) then Rewrite(s, reply) else s
    case Delete(reply) => if MayDelete(s) then Erase(s, reply) else s
    case Mark(ok) => if Marking(s).Some? then Marked(s, ok) else s
    case Drop(ok) => if MayDrop(s) then Dropped(s, ok) else s
    case Fail(now, ok) => if s.queue != [] && s.phase.Failing? then Failed(s, now, ok) else s
    case CallError => if MayFail(s) then s.(phase := Failing) else s
    case Crash => Died(s)
  }

  function Exec(events: seq<Event>): State {
    if events == [] then START else Step(Exec(events[..|events| - 1]), events[|events| - 1])
  }

  // ---------------------------------------------------------------- invariants

  /** Rows are filed under their ids, keys are unique, ids are known. */
  ghost predicate Tidy(s: State) {
    && (forall k :: k in s.rows ==> s.rows[k].id == k && k in s.ids)
    && (forall j, k :: j in s.rows && k in s.rows && s.rows[j].key == s.rows[k].key ==> j == k)
    && (forall k :: k in s.zone ==> k in s.used)
  }

  ghost predicate QueueDistinct(q: seq<Row>) {
    forall i, j :: 0 <= i < j < |q| ==> q[i].id != q[j].id
  }

  /** The snapshot is stale in everything but this: each queued row still exists, under the
      same key and with the record id it had, and it was due when listed. */
  ghost predicate Fresh(s: State) {
    && QueueDistinct(s.queue)
    && forall i :: 0 <= i < |s.queue| ==>
         && s.queue[i].id in s.rows && s.rows[s.queue[i].id].key == s.queue[i].key
         && s.rows[s.queue[i].id].rid == s.queue[i].rid
         && (if s.queue[i].present then s.queue[i].rid.None? else s.queue[i].rid.Some?)
  }

  /** Each phase agrees with the row it is for. */
  ghost predicate InPhase(s: State) {
    match s.phase
    case Begin => true
    case Gone => s.queue != [] && !Head(s).present && Head(s).rid.Some? && Head(s).rid.value !in s.zone
                 && Head(s).rid.value in s.used
    case Found(rid, rec) => s.queue != [] && Head(s).present && rid in s.used && rec.key == Head(s).key
    case Made(rid) => s.queue != [] && Head(s).present && rid in s.used && rid in s.origin
    case Updated(_) => false
    case Missing => s.queue != [] && Head(s).present
    case Failing => s.queue != []
  }

  /** Every stored record id is the reconciler's: it created it, or adopted it when the
      record found was exactly the one wanted. */
  ghost predicate Ours(s: State) {
    && (forall k :: k in s.rows && s.rows[k].rid.Some? ==> s.rows[k].rid.value in s.origin && s.rows[k].rid.value in s.used)
    && (forall rid :: rid in s.origin ==> rid in s.used && (s.origin[rid].Adopted? ==> s.origin[rid].found == s.origin[rid].wanted))
  }

  ghost predicate StoredOn(s: State, rid: Rid) {
    exists k :: k in s.rows && s.rows[k].rid == Some(rid)
  }

  /** Every created record still at the provider is stored on a row, is about to be, or was
      lost between the create and the mark. */
  ghost predicate Accounted(s: State) {
    forall rid :: rid in s.origin && s.origin[rid].Created? && rid in s.zone ==>
      StoredOn(s, rid) || s.phase == Made(rid) || rid in s.lost
  }

  ghost predicate Sound(s: State) {
    Tidy(s) && Fresh(s) && InPhase(s) && Ours(s) && Accounted(s)
  }

  /** From `s` to `t` no row is lost, moved to another key or given another record id. */
  ghost predicate SameRows(s: State, t: State) {
    forall k :: k in s.rows ==> k in t.rows && t.rows[k].rid == s.rows[k].rid && t.rows[k].key == s.rows[k].key
  }

  lemma SameRowsKeep(s: State, t: State)
    requires Sound(s) && Tidy(t) && SameRows(s, t)
    requires forall k :: k in t.rows && k !in s.rows ==> t.rows[k].rid.None?
    requires t.queue == s.queue && t.phase == s.phase && t.origin == s.origin && t.lost == s.lost
    requires t.zone == s.zone && t.used == s.used
    ensures Sound(t)
  {
    forall rid: Rid | StoredOn(s, rid) ensures StoredOn(t, rid) {
      var k :| k in s.rows && s.rows[k].rid == Some(rid);
      assert t.rows[k].rid == Some(rid);
    }
  }

  /** Rewriting one row under its own key, or adding a row under a new one. */
  lemma SetRowTidy(s: State, r: Row)
    requires Tidy(s)
    requires if r.id in s.rows then r.key == s.rows[r.id].key else forall k :: k in s.rows ==> s.rows[k].key != r.key
    ensures Tidy(SetRow(s, r).(ids := s.ids + {r.id}))
    ensures r.id in s.rows ==> s.ids + {r.id} == s.ids
  {
  }

  lemma UpsertSound(s: State, e: Event)
    requires Sound(s) && e.Upsert?
    ensures Sound(Step(s, e))
  {
    hide Fresh; hide InPhase; hide Ours; hide Accounted;
    if e.id in s.rows && s.rows[e.id].key == e.key {
      var r := s.rows[e.id].(content := e.content, present := true, attempt := 0, next := Some(e.now));
      SetRowTidy(s, r);
      hide Tidy;
      SameRowsKeep(s, SetRow(s, r));
    } else if e.id !in s.ids && forall k :: k in s.rows ==> s.rows[k].key != e.key {
      var r := Row(e.id, e.key, e.content, true, None, 0, Some(e.now));
      assert e.id !in s.rows;
      SetRowTidy(s, r);
      hide Tidy;
      SameRowsKeep(s, SetRow(s, r).(ids := s.ids + {r.id}));
    }
  }

  lemma TombstoneSound(s: State, e: Event)
    requires Sound(s) && e.Tombstone?
    ensures Sound(Step(s, e))
  {
    hide Fresh; hide InPhase; hide Ours; hide Accounted;
    SameRowsKeep(s, Step(s, e));
  }

  /** Somebody edits the zone: no record id comes back once it was used and is gone. */
  lemma EditFrame(s: State, e: Event)
    requires e.Operator?
    ensures var t := Step(s, e);
            && t == s.(zone := t.zone, used := t.used)
            && (forall rid :: rid in s.used ==> rid in t.used && (rid in t.zone ==> rid in s.zone))
            && ((forall rid :: rid in s.zone ==> rid in s.used) ==> forall rid :: rid in t.zone ==> rid in t.used)
  {
  }

  lemma OperatorSound(s: State, e: Event)
    requires Sound(s) && e.Operator?
    ensures Sound(Step(s, e))
  {
    EditFrame(s, e);
    var t := Step(s, e);
    hide Step;
    FreshFrame(s, t);
    hide Fresh;
    assert Tidy(t) && Ours(t) by { hide InPhase; hide Accounted; }
    hide Tidy;
    assert InPhase(t) by { hide Ours; hide Accounted; }
    hide InPhase;
    assert forall rid: Rid :: StoredOn(s, rid) ==> StoredOn(t, rid);
    assert Accounted(t);
  }

  lemma FreshFrame(s: State, t: State)
    requires Fresh(s) && t.rows == s.rows && t.queue == s.queue
    ensures Fresh(t)
  {
  }

  lemma ListSound(s: State, e: Event)
    requires Sound(s) && e.List?
    ensures Sound(Step(s, e))
  {
    assert forall rid: Rid :: StoredOn(s, rid) ==> StoredOn(Step(s, e), rid);
  }

  /** Most calls leave rows and queue alone. */
  lemma CallSound(s: State, e: Event)
    requires Sound(s) && (e.Find? || e.CallError? || e.Update?)
    ensures Sound(Step(s, e))
  {
    if s.queue != [] {
      FreshFacts(s);
    }
    hide Fresh; hide Tidy; hide Ours; hide Accounted;
    var t := Step(s, e);
    FreshFrame(s, t);
    if t != s {
      CallKeeps(s, t);
    }
    assert e.Find? && t != s && t.phase.Found? ==> t.phase.rid in s.used by { hide InPhase; assert Tidy(s); ZoneUsed(s); }
  }

  lemma ZoneUsed(s: State)
    requires Tidy(s)
    ensures forall rid :: rid in s.zone ==> rid in s.used
  {
  }

  lemma FreshFacts(s: State)
    requires Fresh(s) && s.queue != []
    ensures var r := Head(s);
            && r.id in s.rows && s.rows[r.id].rid == r.rid && (if r.present then r.rid.None? else r.rid.Some?)
  {
  }

  lemma CrashSound(s: State, e: Event)
    requires Sound(s) && e.Crash?
    ensures Sound(Step(s, e))
  {
    var t := Step(s, e);
    assert forall rid: Rid :: StoredOn(s, rid) ==> StoredOn(t, rid);
    hide Tidy; hide Ours;
    assert Tidy(t) && Ours(t) by { FrameRows(s, t); }
  }

  lemma FrameRows(s: State, t: State)
    requires Tidy(s) && Ours(s)
    requires t.rows == s.rows && t.ids == s.ids && t.zone == s.zone && t.used == s.used && t.origin == s.origin
    ensures Tidy(t) && Ours(t)
  {
  }

  /** A record with a new id, on its way to its mark or lost. */
  lemma MadeKeeps(s: State, t: State, made: Rid, rec: Rec)
    requires Tidy(s) && Ours(s) && Accounted(s) && made !in s.used && !s.phase.Made?
    requires t.rows == s.rows && t.ids == s.ids
    requires t.zone == s.zone[made := rec] && t.used == s.used + {made} && t.origin == s.origin[made := Created]
    requires (t.phase == Made(made) && t.lost == s.lost) || t.lost == s.lost + {made}
    ensures Tidy(t) && Ours(t) && Accounted(t)
  {
    assert forall rid: Rid :: StoredOn(s, rid) ==> StoredOn(t, rid);
  }

  lemma CreateSound(s: State, e: Event)
    requires Sound(s) && e.Create?
    ensures Sound(Step(s, e))
  {
    hide Fresh; hide Tidy; hide Ours; hide Accounted;
    var t := Step(s, e);
    if s.queue != [] && s.phase.Missing? && e.made !in s.used {
      FreshFrame(s, t);
      if e.reply.Refused? {
        CallKeeps(s, t);
      } else {
        MadeKeeps(s, t, e.made, Wanted(Head(s)));
      }
    }
  }

  /** A call that only moves the phase, and not away from a mark. */
  lemma CallKeeps(s: State, t: State)
    requires Tidy(s) && Ours(s) && Accounted(s) && !s.phase.Made? && t == s.(phase := t.phase)
    ensures Tidy(t) && Ours(t) && Accounted(t)
  {
    assert forall rid: Rid :: StoredOn(s, rid) ==> StoredOn(t, rid);
  }

  lemma DeleteSound(s: State, e: Event)
    requires Sound(s) && e.Delete?
    ensures Sound(Step(s, e))
  {
    if MayDelete(s) {
      FreshFacts(s);
      hide Fresh;
      var t := Step(s, e);
      assert forall rid: Rid :: StoredOn(s, rid) ==> StoredOn(t, rid);
      FreshFrame(s, t);
    }
  }

  /** The head row is done with: whatever happened to it, the rest is as fresh as before. */
  lemma FreshRest(s: State, t: State)
    requires Fresh(s) && s.queue != [] && t.queue == s.queue[1..]
    requires forall k :: k in s.rows && k != Head(s).id ==> k in t.rows && t.rows[k] == s.rows[k]
    ensures Fresh(t)
  {
  }

  /** Going on to the next row. */
  lemma AdvanceSound(s: State)
    requires Sound(s) && s.queue != [] && !s.phase.Made?
    ensures Sound(Advance(s))
  {
    var t := Advance(s);
    FreshRest(s, t);
    FrameRows(s, t);
    hide Fresh; hide Tidy; hide Ours;
    assert forall rid: Rid :: StoredOn(s, rid) ==> StoredOn(t, rid);
  }

  /** Rewriting a row's bookkeeping, not its key or record id. */
  lemma RewriteSound(s: State, row: Row)
    requires Sound(s) && row.id in s.rows && row.key == s.rows[row.id].key && row.rid == s.rows[row.id].rid
    ensures Sound(SetRow(s, row))
  {
    hide Fresh; hide InPhase; hide Ours; hide Accounted;
    SetRowTidy(s, row);
    hide Tidy;
    SameRowsKeep(s, SetRow(s, row));
  }

  lemma HeadFacts(s: State)
    requires Sound(s) && s.queue != []
    ensures Head(s).id in s.rows && s.rows[Head(s).id].id == Head(s).id
  {
  }

  lemma FailedSound(s: State, now: int, ok: bool)
    requires Sound(s) && s.queue != [] && s.phase.Failing?
    ensures Sound(Failed(s, now, ok))
  {
    hide Backoff; hide Sound;
    HeadFacts(s);
    var r := Head(s);
    if ok {
      var row := s.rows[r.id].(attempt := r.attempt + 1,
                               next := if r.attempt + 1 < MAX_ATTEMPTS then Some(now + Backoff(r.attempt)) else None);
      RewriteSound(s, row);
      AdvanceSound(SetRow(s, row));
    } else {
      AdvanceSound(s);
    }
  }

  lemma FailSound(s: State, e: Event)
    requires Sound(s) && e.Fail?
    ensures Sound(Step(s, e))
  {
    hide Sound; hide Failed;
    if s.queue != [] && s.phase.Failing? {
      FailedSound(s, e.now, e.ok);
    }
  }

  lemma MarkAccounted(s: State, e: Event)
    requires Sound(s) && e.Mark? && e.ok && Marking(s).Some?
    ensures Accounted(Step(s, e))
  {
    FreshFacts(s);
    hide Fresh; hide Tidy; hide Ours;
    var t, r := Step(s, e), Head(s);
    assert t.rows == s.rows[r.id := t.rows[r.id]] && t.rows[r.id].rid == Marking(s);
    forall rid: Rid | StoredOn(s, rid) ensures StoredOn(t, rid) {
      var k :| k in s.rows && s.rows[k].rid == Some(rid);
      assert t.rows[k].rid == Some(rid);
    }
  }

  lemma MarkOurs(s: State, e: Event)
    requires Sound(s) && e.Mark? && e.ok && Marking(s).Some?
    ensures Ours(Step(s, e)) && InPhase(Step(s, e))
  {
    FreshFacts(s);
    hide Fresh; hide Tidy; hide Accounted;
  }

  lemma MarkTidy(s: State, e: Event)
    requires Sound(s) && e.Mark? && e.ok && Marking(s).Some?
    ensures Tidy(Step(s, e)) && Fresh(Step(s, e))
  {
    hide Accounted; hide Ours;
    FreshFacts(s);
    var t, r := Step(s, e), Head(s);
    assert t.rows == s.rows[r.id := s.rows[r.id].(rid := Marking(s), attempt := 0, next := None)];
    assert t.ids == s.ids && t.zone == s.zone && t.used == s.used && t.queue == s.queue[1..];
    hide Step; hide Marking; hide InPhase;
    FreshRest(s, t);
    hide Fresh;
  }

  lemma MarkSound(s: State, e: Event)
    requires Sound(s) && e.Mark?
    ensures Sound(Step(s, e))
  {
    if Marking(s).Some? && e.ok {
      MarkTidy(s, e);
      MarkOurs(s, e);
      MarkAccounted(s, e);
      hide Step; hide Fresh; hide Tidy; hide Accounted; hide Ours; hide InPhase;
    } else if Marking(s).Some? {
      MarkFailSound(s, e);
      hide Sound;
    }
  }

  lemma MarkFailSound(s: State, e: Event)
    requires Sound(s) && e.Mark? && !e.ok
    ensures Sound(Step(s, e))
  {
    if Marking(s).Some? {
      var t := Step(s, e);
      FreshFrame(s, t);
      FrameRows(s, t);
      hide Fresh; hide Tidy; hide Ours;
      assert forall rid: Rid :: StoredOn(s, rid) ==> StoredOn(t, rid);
    }
  }

  lemma DropRest(s: State, e: Event)
    requires Sound(s) && e.Drop? && e.ok && MayDrop(s)
    ensures var t := Step(s, e); Tidy(t) && Fresh(t) && Ours(t) && InPhase(t)
  {
    var t := Step(s, e);
    assert t == s.(rows := s.rows - {Head(s).id}, queue := s.queue[1..], phase := Begin);
    hide Step; hide InPhase; hide Accounted;
    FreshRest(s, t);
    hide Fresh;
  }

  lemma DropAccounted(s: State, e: Event)
    requires Sound(s) && e.Drop? && e.ok && MayDrop(s)
    ensures Accounted(Step(s, e))
  {
    FreshFacts(s);
    hide Fresh; hide Tidy; hide Ours;
    var t := Step(s, e);
    assert t.rows == s.rows - {Head(s).id} && t.zone == s.zone && t.origin == s.origin && t.lost == s.lost;
    hide Step;
    forall rid: Rid | StoredOn(s, rid) && rid in s.zone ensures StoredOn(t, rid) {
      var k :| k in s.rows && s.rows[k].rid == Some(rid);
      assert k in t.rows && t.rows[k].rid == Some(rid);
    }
  }

  lemma DropFails(s: State, e: Event)
    requires Sound(s) && e.Drop? && !e.ok && MayDrop(s)
    ensures Sound(Step(s, e))
  {
    var t := Step(s, e);
    assert t == s.(phase := Failing) && s.queue != [] && !s.phase.Made?;
    hide Step;
    FreshFrame(s, t);
    hide Fresh; hide Tidy; hide Ours; hide Accounted;
    CallKeeps(s, t);
  }

  lemma DropSound(s: State, e: Event)
    requires Sound(s) && e.Drop?
    ensures Sound(Step(s, e))
  {
    if MayDrop(s) {
      if e.ok {
        DropRest(s, e);
        DropAccounted(s, e);
        hide Step; hide Fresh; hide Tidy; hide Accounted; hide Ours; hide InPhase;
      } else {
        hide Sound;
        DropFails(s, e);
      }
    }
  }

  lemma StepSound(s: State, e: Event)
    requires Sound(s)
    ensures Sound(Step(s, e))
  {
    hide Sound; hide Step;
    match e
    case Upsert(_, _, _, _) => UpsertSound(s, e);
    case Tombstone(_, _) => TombstoneSound(s, e);
    case Operator(_, _) => OperatorSound(s, e);
    case List(_, _) => ListSound(s, e);
    case Create(_, _) => CreateSound(s, e);
    case Delete(_) => DeleteSound(s, e);
    case Mark(_) => MarkSound(s, e);
    case Drop(_) => DropSound(s, e);
    case Fail(_, _) => FailSound(s, e);
    case Crash => CrashSound(s, e);
    case _ => CallSound(s, e);
  }

  lemma {:induction false} RunSound(events: seq<Event>)
    ensures Sound(Exec(events))
  {
    if events != [] {
      RunSound(events[..|events| - 1]);
      hide Sound; hide Step;
      StepSound(Exec(events[..|events| - 1]), events[|events| - 1]);
    }
  }

  // ---------------------------------------------------------------- main results

  /** Whatever record the reconciler changes or removes at the provider is stored on the row
      it is converging, which is a tombstone in its snapshot, and is one the reconciler
      created or adopted when the record found was exactly the wanted one. */
  lemma TouchesOnlyItsOwn(events: seq<Event>, e: Event, rid: Rid)
    requires !e.Operator?
    requires rid in Exec(events).zone
    requires rid !in Step(Exec(events), e).zone || Step(Exec(events), e).zone[rid] != Exec(events).zone[rid]
    ensures var s := Exec(events);
            && s.queue != [] && !Head(s).present && Head(s).id in s.rows && s.rows[Head(s).id].rid == Some(rid)
            && rid in s.origin
            && (s.origin[rid].Created? || s.origin[rid].found == s.origin[rid].wanted)
  {
    RunSound(events);
    hide Exec;
    var s := Exec(events);
    if s.queue != [] {
      FreshFacts(s);
    }
    hide Fresh;
  }

  /** A row disappears only when it stores a record id whose record is gone from the provider. */
  lemma RowsGoLast(events: seq<Event>, e: Event, k: nat)
    requires k in Exec(events).rows && k !in Step(Exec(events), e).rows
    ensures var s := Exec(events); s.rows[k].rid.Some? && s.rows[k].rid.value !in s.zone
  {
    RunSound(events);
    hide Exec;
    var s := Exec(events);
    if s.queue != [] {
      FreshFacts(s);
    }
    hide Fresh;
  }

  /** The step cuts a create off from its mark: its answer is lost, or the process dies or
      the database refuses before the mark. */
  predicate Cuts(s: State, e: Event) {
    (e.Create? && e.reply.NoAnswer?) || (s.phase.Made? && (e.Crash? || e == Mark(false)))
  }

  ghost predicate Uncut(events: seq<Event>) {
    forall i :: 0 <= i < |events| ==> !Cuts(Exec(events[..i]), events[i])
  }

  lemma CutsLose(s: State, e: Event)
    requires Sound(s) && !Cuts(s, e)
    ensures Step(s, e).lost == s.lost
  {
    if s.queue != [] {
      FreshFacts(s);
    }
    hide Fresh; hide Tidy; hide Ours; hide Accounted; hide Backoff;
  }

  lemma {:induction false} UncutLosesNothing(events: seq<Event>)
    requires Uncut(events)
    ensures Exec(events).lost == {}
  {
    if events != [] {
      var init := events[..|events| - 1];
      assert forall i :: 0 <= i < |init| ==> init[..i] == events[..i];
      UncutLosesNothing(init);
      RunSound(init);
      hide Step; hide Sound; hide Cuts;
      assert !Cuts(Exec(events[..|events| - 1]), events[|events| - 1]);
      CutsLose(Exec(init), events[|events| - 1]);
    }
  }

  /** With no cut between a create and its mark, every created record that still exists is
      stored on a row, except for the one about to be marked. */
  lemma NoOrphans(events: seq<Event>, rid: Rid)
    requires Uncut(events)
    requires rid in Exec(events).zone && rid in Exec(events).origin && Exec(events).origin[rid].Created?
    ensures StoredOn(Exec(events), rid) || Exec(events).phase == Made(rid)
  {
    RunSound(events);
    UncutLosesNothing(events);
    hide Exec;
  }

  // ---------------------------------------------------- rows that are never converged

  /** The update branch of converge is dead: the due list has present rows only while they
      store no record id. */
  lemma NeverUpdates(events: seq<Event>)
    ensures !MayUpdate(Exec(events))
  {
    RunSound(events);
    hide Exec;
    if Exec(events).queue != [] {
      FreshFacts(Exec(events));
    }
  }

  /** The row stores a record id and will not be listed: it is present, or it is absent with
      no next attempt. */
  ghost predicate Settled(s: State, k: nat, rid: Rid) {
    && k in s.rows && s.rows[k].rid == Some(rid) && (s.rows[k].present || s.rows[k].next.None?)
    && forall i :: 0 <= i < |s.queue| ==> s.queue[i].id != k
  }

  /** The statement that makes a settled row work again. */
  ghost predicate Reburies(s: State, e: Event, k: nat) {
    e.Tombstone? && k in e.which && k in s.rows && s.rows[k].present
  }

  lemma ListSettled(s: State, e: Event, k: nat, rid: Rid)
    requires Tidy(s) && Settled(s, k, rid) && e.List?
    ensures Settled(Step(s, e), k, rid)
  {
    if Step(s, e) != s {
      forall i | 0 <= i < |e.picked| ensures s.rows[e.picked[i]].id != k { assert Due(s.rows[e.picked[i]], e.now); }
    }
  }

  lemma RowSettled(s: State, e: Event, k: nat, rid: Rid)
    requires Tidy(s) && Settled(s, k, rid) && !Reburies(s, e, k) && (e.Upsert? || e.Tombstone?)
    ensures Settled(Step(s, e), k, rid)
  {
  }

  /** Calls that write no row. */
  lemma CallSettled(s: State, e: Event, k: nat, rid: Rid)
    requires Settled(s, k, rid)
    requires e.Operator? || e.Find? || e.Create? || e.Update? || e.Delete? || e.CallError? || e.Crash?
    ensures Settled(Step(s, e), k, rid)
  {
    var t := Step(s, e);
    assert t.rows == s.rows && (t.queue == s.queue || t.queue == []);
    hide Step;
  }

  /** Calls that write or drop the row at the head, which is another one. */
  lemma WriteSettled(s: State, e: Event, k: nat, rid: Rid)
    requires Tidy(s) && Settled(s, k, rid) && (e.Mark? || e.Drop? || e.Fail?)
    ensures Settled(Step(s, e), k, rid)
  {
    OtherRow(s, e, k);
    hide Step; hide Tidy;
  }

  /** Such a call leaves every row but the head's alone. */
  lemma OtherRow(s: State, e: Event, k: nat)
    requires Tidy(s) && k in s.rows && (e.Mark? || e.Drop? || e.Fail?) && (s.queue != [] ==> Head(s).id != k)
    ensures var t := Step(s, e);
            k in t.rows && t.rows[k] == s.rows[k] && (t.queue == s.queue || (s.queue != [] && t.queue == s.queue[1..]))
  {
    hide Backoff;
    if e.Mark? {
      if Marking(s).Some? && Head(s).id in s.rows {
        assert s.rows[Head(s).id].id == Head(s).id;
      }
    } else if e.Fail? {
      if s.queue != [] && Head(s).id in s.rows {
        assert s.rows[Head(s).id].id == Head(s).id;
      }
    }
    hide Tidy;
  }

  lemma StepSettled(s: State, e: Event, k: nat, rid: Rid)
    requires Tidy(s) && Settled(s, k, rid) && !Reburies(s, e, k)
    ensures Settled(Step(s, e), k, rid)
  {
    hide Tidy; hide Step; hide Settled;
    if e.List? {
      ListSettled(s, e, k, rid);
    } else if e.Upsert? || e.Tombstone? {
      RowSettled(s, e, k, rid);
    } else if e.Mark? || e.Drop? || e.Fail? {
      WriteSettled(s, e, k, rid);
    } else {
      CallSettled(s, e, k, rid);
    }
  }

  /** Such a row is never converged again until it is tombstoned while present: no sweep has
      it in its queue, whatever content it is given meanwhile. So a row that stores a record
      id and gets new content keeps the old record, and a row tombstoned between the create
      and the mark of its record keeps the record for good. */
  lemma {:induction false} NeverConvergedAgain(events: seq<Event>, more: seq<Event>, k: nat, rid: Rid)
    requires Settled(Exec(events), k, rid)
    requires forall i :: 0 <= i < |more| ==> !Reburies(Exec(events + more[..i]), more[i], k)
    ensures Settled(Exec(events + more), k, rid)
  {
    hide Step; hide Settled; hide Reburies; hide Exec;
    var all := events + more;
    if more == [] {
      assert all == events;
    } else {
      var init := more[..|more| - 1];
      assert all[..|all| - 1] == events + init;
      assert forall i :: 0 <= i < |init| ==> init[..i] == more[..i];
      NeverConvergedAgain(events, init, k, rid);
      RunSound(events + init);
      hide Tidy; hide Fresh; hide InPhase; hide Ours; hide Accounted;
      assert events + more[..|init|] == events + init;
      assert all[|all| - 1] == more[|init|];
      StepSettled(Exec(events + init), more[|init|], k, rid);
      ExecSplits(all);
    }
  }

  lemma ExecSplits(events: seq<Event>)
    requires events != []
    ensures Exec(events) == Step(Exec(events[..|events| - 1]), events[|events| - 1])
  {
  }

  lemma ExecSnoc(events: seq<Event>, e: Event)
    ensures Exec(events + [e]) == Step(Exec(events), e)
  {
    assert (events + [e])[..|events|] == events;
  }

  /** Marking a record settles its row, whatever became of the row since it was listed. */
  lemma MarkSettles(events: seq<Event>)
    requires Marking(Exec(events)).Some?
    ensures var s := Exec(events);
            var t, k := Exec(events + [Mark(true)]), Head(s).id;
            k in s.rows && Settled(t, k, Marking(s).value) && t.rows[k].present == s.rows[k].present && t.zone == s.zone
  {
    var s := Exec(events);
    RunSound(events);
    ExecSnoc(events, Mark(true));
    hide Exec;
    HeadFacts(s);
    var t := Step(s, Mark(true));
    assert t.queue == s.queue[1..] && t.zone == s.zone;
  }

  // ------------------------------------------------------- the record of a settled row

  /** Unless somebody edits the record at the provider, whatever stores its id has its key. */
  ghost predicate OwnKey(s: State, rid: Rid) {
    rid in s.zone ==>
      && (forall j :: j in s.rows && s.rows[j].rid == Some(rid) ==> s.rows[j].key == s.zone[rid].key)
      && (s.phase == Made(rid) && s.queue != [] ==> Head(s).key == s.zone[rid].key)
      && (s.phase.Found? && s.phase.rid == rid ==> s.phase.rec.key == s.zone[rid].key)
  }

  predicate Edits(e: Event, rid: Rid) { e.Operator? && e.rid == rid }

  lemma RowOwnKey(s: State, e: Event, rid: Rid)
    requires Sound(s) && OwnKey(s, rid) && (e.Upsert? || e.Tombstone?)
    ensures OwnKey(Step(s, e), rid)
  {
    hide Fresh; hide InPhase; hide Accounted; hide Ours;
    var t := Step(s, e);
    assert t.zone == s.zone && t.phase == s.phase && t.queue == s.queue;
    assert forall j :: j in t.rows && t.rows[j].rid.Some? ==>
      j in s.rows && t.rows[j].rid == s.rows[j].rid && t.rows[j].key == s.rows[j].key;
    hide Step; hide Tidy;
  }

  /** Calls that leave rows and zone alone. */
  lemma LookOwnKey(s: State, e: Event, rid: Rid)
    requires Sound(s) && OwnKey(s, rid) && (e.List? || e.Find? || e.CallError? || e.Crash?)
    ensures OwnKey(Step(s, e), rid)
  {
    hide Fresh; hide Accounted; hide Ours; hide Tidy;
    var t := Step(s, e);
    assert t.rows == s.rows && t.zone == s.zone;
  }

  /** Calls that change the zone. */
  lemma CallOwnKey(s: State, e: Event, rid: Rid)
    requires Sound(s) && OwnKey(s, rid) && !Edits(e, rid)
    requires e.Operator? || e.Create? || e.Update? || e.Delete?
    ensures OwnKey(Step(s, e), rid)
  {
    if s.queue != [] {
      FreshFacts(s);
    }
    hide Fresh; hide Accounted;
    var t := Step(s, e);
    assert t.rows == s.rows && t.queue == s.queue;
    assert rid in s.used && rid in t.zone ==> rid in s.zone && t.zone[rid] == s.zone[rid];
    assert t.phase == s.phase || t.phase.Made? || t.phase.Gone? || t.phase.Failing?;
    assert t.phase == Made(rid) && t.phase != s.phase ==> rid in t.zone && t.zone[rid].key == Head(s).key && rid !in s.used;
    hide Step;
  }

  lemma WriteOwnKey(s: State, e: Event, rid: Rid)
    requires Sound(s) && OwnKey(s, rid) && (e.Mark? || e.Drop? || e.Fail?)
    ensures OwnKey(Step(s, e), rid)
  {
    if s.queue != [] {
      HeadFacts(s);
      HeadKey(s);
    }
    hide Fresh; hide Accounted; hide Ours; hide Backoff; hide Tidy;
    var t := Step(s, e);
    assert t.zone == s.zone;
  }

  lemma HeadKey(s: State)
    requires Fresh(s) && s.queue != []
    ensures Head(s).id in s.rows && s.rows[Head(s).id].key == Head(s).key
  {
  }

  lemma StepOwnKey(s: State, e: Event, rid: Rid)
    requires Sound(s) && OwnKey(s, rid) && !Edits(e, rid)
    ensures OwnKey(Step(s, e), rid)
  {
    hide Sound; hide OwnKey; hide Step;
    if e.Upsert? || e.Tombstone? {
      RowOwnKey(s, e, rid);
    } else if e.Mark? || e.Drop? || e.Fail? {
      WriteOwnKey(s, e, rid);
    } else if e.List? || e.Find? || e.CallError? || e.Crash? {
      LookOwnKey(s, e, rid);
    } else {
      CallOwnKey(s, e, rid);
    }
  }

  ghost predicate Unedited(events: seq<Event>, rid: Rid) {
    forall i :: 0 <= i < |events| ==> !Edits(events[i], rid)
  }

  lemma {:induction false} RunOwnKey(events: seq<Event>, rid: Rid)
    requires Unedited(events, rid)
    ensures OwnKey(Exec(events), rid)
  {
    if events != [] {
      RunOwnKey(events[..|events| - 1], rid);
      RunSound(events[..|events| - 1]);
      hide Sound; hide OwnKey; hide Step;
      StepOwnKey(Exec(events[..|events| - 1]), events[|events| - 1], rid);
    }
  }

  /** No step of the reconciler touches the record of a settled row. */
  lemma RecordStays(s: State, e: Event, k: nat, rid: Rid)
    requires Sound(s) && OwnKey(s, rid) && Settled(s, k, rid) && rid in s.zone && !Edits(e, rid)
    ensures rid in Step(s, e).zone && Step(s, e).zone[rid] == s.zone[rid]
  {
    if s.queue != [] {
      FreshFacts(s);
      HeadKey(s);
      assert Head(s).id != k;
    }
    hide Fresh; hide Accounted; hide Ours;
  }

  /** From a settled row on: whatever rows, sweeps and crashes do, until the row is
      tombstoned while present, it keeps its record id, no sweep takes it up, and the record
      at the provider stays as it is unless somebody edits it there. */
  lemma {:induction false} SettledForGood(events: seq<Event>, more: seq<Event>, k: nat, rid: Rid)
    requires Settled(Exec(events), k, rid) && rid in Exec(events).zone
    requires Unedited(events + more, rid)
    requires forall i :: 0 <= i < |more| ==> !Reburies(Exec(events + more[..i]), more[i], k)
    ensures var s, t := Exec(events), Exec(events + more);
            Settled(t, k, rid) && rid in t.zone && t.zone[rid] == s.zone[rid]
  {
    hide Step; hide Settled; hide Reburies; hide Exec; hide Edits; hide OwnKey; hide Sound;
    var all := events + more;
    if more == [] {
      assert all == events;
    } else {
      var init, e := more[..|more| - 1], more[|more| - 1];
      var was := events + init;
      assert all[..|all| - 1] == was && all[|all| - 1] == e;
      assert forall i :: 0 <= i < |init| ==> init[..i] == more[..i];
      assert forall i :: 0 <= i < |was| ==> was[i] == all[i];
      SettledForGood(events, init, k, rid);
      RunSound(was);
      RunOwnKey(was, rid);
      assert !Reburies(Exec(events + more[..|init|]), more[|init|], k);
      assert !Edits(all[|all| - 1], rid);
      RecordStays(Exec(was), e, k, rid);
      SettledStep(Exec(was), e, k, rid);
      ExecSplits(all);
    }
  }

  lemma SettledStep(s: State, e: Event, k: nat, rid: Rid)
    requires Sound(s) && Settled(s, k, rid) && !Reburies(s, e, k)
    ensures Settled(Step(s, e), k, rid)
  {
    hide Step; hide Settled; hide Reburies; hide Tidy; hide Fresh; hide InPhase; hide Ours; hide Accounted;
    StepSettled(s, e, k, rid);
  }

  /** New content for any row that stores a record id never reaches the provider: the row
      wants it, and the record stays what it was. */
  lemma ContentChangeIsLost(events: seq<Event>, content: string, now: int, more: seq<Event>, k: nat, rid: Rid)
    requires Settled(Exec(events), k, rid) && rid in Exec(events).zone
    requires var e := Upsert(k, Exec(events).rows[k].key, content, now);
             && Unedited(events + [e] + more, rid)
             && forall i :: 0 <= i < |more| ==> !Reburies(Exec(events + [e] + more[..i]), more[i], k)
    ensures var e := Upsert(k, Exec(events).rows[k].key, content, now);
            && Exec(events + [e]).rows[k].content == content && Exec(events + [e]).rows[k].present
            && Settled(Exec(events + [e] + more), k, rid)
            && rid in Exec(events + [e] + more).zone && Exec(events + [e] + more).zone[rid] == Exec(events).zone[rid]
  {
    var s, e := Exec(events), Upsert(k, Exec(events).rows[k].key, content, now);
    RunSound(events);
    ExecSnoc(events, e);
    UpsertSettled(s, content, now, k, rid);
    hide Exec; hide Sound; hide Step; hide Settled; hide Reburies; hide Unedited;
    SettledForGood(events + [e], more, k, rid);
  }

  lemma UpsertSettled(s: State, content: string, now: int, k: nat, rid: Rid)
    requires Sound(s) && Settled(s, k, rid)
    ensures var t := Step(s, Upsert(k, s.rows[k].key, content, now));
            Settled(t, k, rid) && t.rows[k].content == content && t.rows[k].present && t.zone == s.zone
  {
    hide Fresh; hide InPhase; hide Ours; hide Accounted;
  }

  /** A row tombstoned at any moment before the mark of its record keeps the record for good:
      marking settles the absent row, and nothing but a new wish for its name changes that. */
  lemma TombstoneDuringCreateLeaks(events: seq<Event>, more: seq<Event>)
    requires Marking(Exec(events)).Some? && Marking(Exec(events)).value in Exec(events).zone
    requires Head(Exec(events)).id in Exec(events).rows && !Exec(events).rows[Head(Exec(events)).id].present
    requires Unedited(events + [Mark(true)] + more, Marking(Exec(events)).value)
    requires forall i :: 0 <= i < |more| ==> !(more[i].Upsert? && more[i].id == Head(Exec(events)).id)
    ensures var s, t := Exec(events), Exec(events + [Mark(true)] + more);
            var k, rid := Head(s).id, Marking(s).value;
            Settled(t, k, rid) && !t.rows[k].present && rid in t.zone && t.zone[rid] == s.zone[rid]
  {
    var s := Exec(events);
    var k, rid := Head(s).id, Marking(s).value;
    MarkSettles(events);
    var marked := events + [Mark(true)];
    RunSound(marked);
    assert k in Exec(marked).ids && Absent(Exec(marked), k);
    hide Exec; hide Settled; hide Marking; hide Unedited; hide Sound; hide Absent;
    AbsentIsForGood(marked, more, k, rid);
  }

  /** An absent settled row stays so while its name is not wanted again. */
  lemma AbsentIsForGood(events: seq<Event>, more: seq<Event>, k: nat, rid: Rid)
    requires Settled(Exec(events), k, rid) && rid in Exec(events).zone && k in Exec(events).ids && Absent(Exec(events), k)
    requires Unedited(events + more, rid)
    requires forall i :: 0 <= i < |more| ==> !(more[i].Upsert? && more[i].id == k)
    ensures var s, t := Exec(events), Exec(events + more);
            Settled(t, k, rid) && k in t.rows && !t.rows[k].present && rid in t.zone && t.zone[rid] == s.zone[rid]
  {
    hide Exec; hide Settled; hide Unedited;
    forall i | 0 <= i < |more| ensures !Reburies(Exec(events + more[..i]), more[i], k) {
      var init := more[..i];
      assert forall j :: 0 <= j < |init| ==> init[j] == more[j];
      AbsentStays(events, init, k);
    }
    AbsentStays(events, more, k);
    SettledForGood(events, more, k, rid);
    SettledRow(Exec(events + more), k, rid);
  }

  lemma SettledRow(s: State, k: nat, rid: Rid)
    requires Settled(s, k, rid)
    ensures k in s.rows
  {
  }

  ghost predicate Absent(s: State, k: nat) { k in s.rows ==> !s.rows[k].present }

  lemma AbsentStep(s: State, e: Event, k: nat)
    requires Tidy(s) && k in s.ids && Absent(s, k) && !(e.Upsert? && e.id == k)
    ensures Absent(Step(s, e), k) && k in Step(s, e).ids
  {
    hide Backoff;
  }

  lemma {:induction false} AbsentStays(events: seq<Event>, more: seq<Event>, k: nat)
    requires Absent(Exec(events), k) && k in Exec(events).ids
    requires forall i :: 0 <= i < |more| ==> !(more[i].Upsert? && more[i].id == k)
    ensures Absent(Exec(events + more), k) && k in Exec(events + more).ids
  {
    hide Step; hide Absent; hide Exec;
    var all := events + more;
    if more == [] {
      assert all == events;
    } else {
      var init := more[..|more| - 1];
      assert all[..|all| - 1] == events + init && all[|all| - 1] == more[|more| - 1];
      AbsentStays(events, init, k);
      RunSound(events + init);
      hide Tidy; hide Fresh; hide InPhase; hide Ours; hide Accounted;
      AbsentStep(Exec(events + init), more[|more| - 1], k);
      ExecSplits(all);
    }
  }

  /** The states of a first creation. */
  lemma CreationRun(key: string, content: string)
    ensures var s1 := Step(START, Upsert(0, key, content, 0));
            var s2 := Step(s1, List([0], 0));
            var s4 := Step(Step(s2, Find(None)), Create(0, Reply.Ok));
            var r := Row(0, key, content, true, None, 0, Some(0));
            s4 == State(map[0 := r], {0}, map[0 := Rec(key, content)], {0}, [r], Made(0), map[0 := Created], {})
  {
    var r := Row(0, key, content, true, None, 0, Some(0));
    var s1 := START.(rows := map[0 := r], ids := {0});
    assert Step(START, Upsert(0, key, content, 0)) == s1;
    var s2 := s1.(queue := [r]);
    assert Step(s1, List([0], 0)) == s2;
    assert Step(s2, Find(None)) == s2.(phase := Missing);
    assert s2.zone[0 := Rec(key, content)] == map[0 := Rec(key, content)];
  }

  /** There is always an id not yet given out. */
  lemma Unused(used: set<Rid>)
    ensures exists rid: Rid :: rid !in used
  {
    var n := Above(used);
    assert n !in used;
  }

  ghost function Above(used: set<Rid>): (n: Rid)
    ensures forall k :: k in used ==> k < n
  {
    if used == {} then 0
    else
      var k :| k in used;
      var m := Above(used - {k});
      assert used == (used - {k}) + {k};
      if k < m then m else k + 1
  }
}
